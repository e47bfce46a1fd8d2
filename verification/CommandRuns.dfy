/** The rotation commands as clients of one store. Each command is a sequence
    of separate store calls, and the calls of any number of clients interleave
    in any order, with the remaining transactions between any two of them. */
module CommandRuns {
  import opened KeyRefs
  import opened Maps
  import opened Results
  import opened KeyTables
  import opened KeyTransactions
  import P = KeyProtection
  import K = Keyring
  import Text

  /** Where a client is, and what it has read. */
  datatype Client =
    | Idle
    | Proposed(operationId: string, record: P.ProtectedKey)
    | RootDue(operationId: string)
    | RootUnseen(operationId: string)
    | RestartDue(operationId: string)

  /** `proposals` is the history of the keys that clients protected, each for
      the reference it was told. */
  datatype State = State(tables: Tables, clients: map<nat, Client>, proposals: set<(string, P.ProtectedKey)>)

  const INITIAL := State(EMPTY, map[], {})

  datatype Event =
    | Store(step: Step)
    | Propose(client: nat, clusterId: string, keyId: string, operationId: string, policyId: string, material: K.Bytes)
    | Submit(client: nat, now: int)
    | ReadForRoot(client: nat, operationId: string)
    | RecordRoot(client: nat, detail: string, now: int)
    | ReadForRestart(client: nat, operationId: string)
    | CheckRoot(client: nat)
    | RecordRestart(client: nat, detail: string, now: int)

  function At(s: State, client: nat): Client {
    if client in s.clients then s.clients[client] else Idle
  }

  function Move(s: State, client: nat, to: Client): State {
    s.(clients := s.clients[client := to])
  }

  predicate IsActivated(t: Tables, id: string) {
    id in t.operations && t.operations[id].status.Activated?
  }

  predicate RootSeen(t: Tables, id: string) {
    (id, OpenBaoRoot) in t.verifications
  }

  /** Rotations and verifications come from the commands below only, and every
      first version is protected by the development protector. */
  predicate Other(step: Step) {
    match step
    case Bootstrap(key, _) => P.Opens(key)
    case Configure(_, key) => P.Opens(key)
    case Start(_, _, _) => false
    case Record(_, _, _, _) => false
    case _ => true
  }

  ghost function After(s: State, e: Event): State
    requires Inv(s.tables)
  {
    match e
    case Store(step) => if Other(step) then s.(tables := Apply(s.tables, step)) else s
    case Propose(client, c, k, id, policyId, material) => (
      match ProposedRef(s.tables, c, k)
      case None => s
      case Some(ref) => Protected(s, client, id, K.KeyVersion(ref, K.Pending, K.ALGORITHM, policyId, material)))
    case Submit(client, now) => (
      match At(s, client)
      case Proposed(id, record) => Move(s.(tables := Apply(s.tables, Start(id, record, now))), client, Idle)
      case _ => s)
    case ReadForRoot(client, id) =>
      if IsActivated(s.tables, id) then Move(s, client, RootDue(id)) else s
    case RecordRoot(client, detail, now) => (
      match At(s, client)
      case RootDue(id) => Move(s.(tables := Apply(s.tables, Record(id, OpenBaoRoot, detail, now))), client, Idle)
      case _ => s)
    case ReadForRestart(client, id) =>
      if IsActivated(s.tables, id) then Move(s, client, RootUnseen(id)) else s
    case CheckRoot(client) => (
      match At(s, client)
      case RootUnseen(id) => Move(s, client, if RootSeen(s.tables, id) then RestartDue(id) else Idle)
      case _ => s)
    case RecordRestart(client, detail, now) => (
      match At(s, client)
      case RestartDue(id) => Move(s.(tables := Apply(s.tables, Record(id, Restart, detail, now))), client, Idle)
      case _ => s)
  }

  function Protected(s: State, client: nat, id: string, version: K.KeyVersion): State {
    match P.Protect(version)
    case Err(_) => s
    case Ok(record) => Move(s, client, Proposed(id, record)).(proposals := s.proposals + {(id, record)})
  }

  // ---------------------------------------------------------------------
  // What every event keeps
  // ---------------------------------------------------------------------

  /** The key under `ref` is the one an operation's client protected for it. */
  ghost predicate Backed(s: State, ref: KeyRef)
    requires ref in s.tables.keys
  {
    exists p | p in s.proposals ::
      && p.1.ref == ref && Same(RowOf(p.1), s.tables.keys[ref])
      && p.0 in s.tables.operations && ToRef(s.tables.operations[p.0]) == ref
  }

  ghost predicate AllBacked(s: State) {
    forall ref | ref in s.tables.keys && ref.version > 1 :: Backed(s, ref)
  }

  ghost predicate AllOpen(t: Tables) {
    forall ref | ref in t.keys :: P.Opens(RecordOf(ref, t.keys[ref]))
  }

  ghost predicate Ordered(t: Tables) {
    && (forall id | (id, OpenBaoRoot) in t.verifications :: IsActivated(t, id))
    && (forall id | (id, Restart) in t.verifications :: (id, OpenBaoRoot) in t.verifications)
  }

  /** What a client has read still holds. */
  ghost predicate Current(s: State, client: Client) {
    match client
    case Idle => true
    case Proposed(id, record) => (id, record) in s.proposals && P.Opens(record)
    case RootDue(id) => IsActivated(s.tables, id)
    case RootUnseen(id) => IsActivated(s.tables, id)
    case RestartDue(id) => IsActivated(s.tables, id) && RootSeen(s.tables, id)
  }

  ghost predicate Clients(s: State) {
    forall c | c in s.clients :: Current(s, s.clients[c])
  }

  ghost predicate Good(s: State) {
    Inv(s.tables) && AllBacked(s) && AllOpen(s.tables) && Ordered(s.tables) && Clients(s)
  }

  ghost function Run(s: State, events: seq<Event>): (s': State)
    requires Good(s)
    ensures Good(s')
    decreases |events|
  {
    if events == [] then s
    else
      AfterKeepsGood(s, events[0]);
      Run(After(s, events[0]), events[1..])
  }

  // ---------------------------------------------------------------------
  // Later tables keep what clients read
  // ---------------------------------------------------------------------

  lemma CurrentLater(s: State, s': State)
    requires Clients(s) && Later(s.tables, s'.tables) && s.proposals <= s'.proposals
    requires s'.clients == s.clients
    ensures Clients(s')
  {
    forall c | c in s'.clients ensures Current(s', s'.clients[c]) {
      CurrentStays(s, s', s.clients[c]);
    }
  }

  lemma CurrentStays(s: State, s': State, client: Client)
    requires Current(s, client) && Later(s.tables, s'.tables) && s.proposals <= s'.proposals
    ensures Current(s', client)
  {
    hide P.Opens;
    if !client.Idle? && IsActivated(s.tables, client.operationId) {
      StaysActivated(s.tables, s'.tables, client.operationId);
    }
    if client.RestartDue? {
      assert (client.operationId, OpenBaoRoot) in s'.tables.verifications;
    }
  }

  lemma BackedLater(s: State, s': State, ref: KeyRef)
    requires ref in s.tables.keys && Backed(s, ref)
    requires Later(s.tables, s'.tables) && s.proposals <= s'.proposals
    ensures ref in s'.tables.keys && Backed(s', ref)
  {
    var p :| p in s.proposals && p.1.ref == ref && Same(RowOf(p.1), s.tables.keys[ref])
             && p.0 in s.tables.operations && ToRef(s.tables.operations[p.0]) == ref;
    assert p in s'.proposals;
    assert p.0 in s'.tables.operations && Continues(s.tables.operations[p.0], s'.tables.operations[p.0]);
  }

  lemma OpenLater(t: Tables, t': Tables, ref: KeyRef)
    requires Inv(t) && Inv(t') && Later(t, t') && ref in t.keys && P.Opens(RecordOf(ref, t.keys[ref]))
    ensures ref in t'.keys && P.Opens(RecordOf(ref, t'.keys[ref]))
  {
    hide P.ValidRecord, Shaped, References, DistinctTargets;
    assert Same(t.keys[ref], t'.keys[ref]);
  }

  /** A step whose new keys are backed and open, and whose verifications are in
      order, keeps everything. */
  lemma LaterKeepsGood(s: State, s': State)
    requires Good(s) && Inv(s'.tables) && Later(s.tables, s'.tables)
    requires s.proposals <= s'.proposals && s'.clients == s.clients
    requires forall ref | ref in s'.tables.keys && ref !in s.tables.keys ::
               P.Opens(RecordOf(ref, s'.tables.keys[ref])) && (ref.version > 1 ==> Backed(s', ref))
    requires Ordered(s'.tables)
    ensures Good(s')
  {
    hide Inv, Later, P.Opens, Ordered, Backed, Current;
    CurrentLater(s, s');
    forall ref | ref in s'.tables.keys
      ensures P.Opens(RecordOf(ref, s'.tables.keys[ref])) && (ref.version > 1 ==> Backed(s', ref))
    {
      if ref in s.tables.keys {
        OpenLater(s.tables, s'.tables, ref);
        if ref.version > 1 {
          BackedLater(s, s', ref);
        }
      }
    }
  }

  lemma OrderedLater(t: Tables, t': Tables)
    requires Ordered(t) && Later(t, t') && t'.verifications == t.verifications
    ensures Ordered(t')
  {
    forall id | (id, OpenBaoRoot) in t'.verifications ensures IsActivated(t', id) {
      StaysActivated(t, t', id);
    }
  }

  // ---------------------------------------------------------------------
  // Event by event
  // ---------------------------------------------------------------------

  lemma AfterKeepsGood(s: State, e: Event)
    requires Good(s)
    ensures Good(After(s, e))
  {
    hide Inv, AllBacked, AllOpen, Ordered, Clients, Apply, ProposedRef, Protected, Other, P.Opens;
    match e
    case Store(step) =>
      if Other(step) {
        StoreKeepsGood(s, step);
      }
    case Propose(client, c, k, id, policyId, material) =>
      var ref := ProposedRef(s.tables, c, k);
      if ref.Some? {
        ProposeKeepsGood(s, client, id, K.KeyVersion(ref.value, K.Pending, K.ALGORITHM, policyId, material));
      }
    case Submit(client, now) =>
      if At(s, client).Proposed? {
        SubmitKeepsGood(s, client, now);
      }
    case ReadForRoot(client, id) =>
      if IsActivated(s.tables, id) {
        MoveKeepsGood(s, client, RootDue(id));
      }
    case RecordRoot(client, detail, now) =>
      if At(s, client).RootDue? {
        ClientCurrent(s, client);
        RecordKeepsGood(s, client, At(s, client).operationId, OpenBaoRoot, detail, now);
      }
    case ReadForRestart(client, id) =>
      if IsActivated(s.tables, id) {
        MoveKeepsGood(s, client, RootUnseen(id));
      }
    case CheckRoot(client) =>
      if At(s, client).RootUnseen? {
        var id := At(s, client).operationId;
        ClientCurrent(s, client);
        MoveKeepsGood(s, client, if RootSeen(s.tables, id) then RestartDue(id) else Idle);
      }
    case RecordRestart(client, detail, now) =>
      if At(s, client).RestartDue? {
        ClientCurrent(s, client);
        RecordKeepsGood(s, client, At(s, client).operationId, Restart, detail, now);
      }
  }

  lemma ClientCurrent(s: State, client: nat)
    requires Clients(s)
    ensures Current(s, At(s, client))
  {
  }

  lemma MoveKeepsGood(s: State, client: nat, to: Client)
    requires Good(s)
    requires to.Idle? || to.RootDue? || to.RootUnseen? || to.RestartDue?
    requires !to.Idle? ==> IsActivated(s.tables, to.operationId)
    requires to.RestartDue? ==> RootSeen(s.tables, to.operationId)
    ensures Good(Move(s, client, to))
  {
    hide Inv, AllOpen, Ordered;
    SameStore(s, Move(s, client, to));
  }

  /** Moving a client alone leaves the rest as it was. */
  lemma SameStore(s: State, s': State)
    requires AllBacked(s) && s'.tables == s.tables && s.proposals <= s'.proposals
    ensures AllBacked(s')
    ensures forall client :: Current(s, client) ==> Current(s', client)
  {
    hide P.Opens;
    LaterRefl(s.tables);
    forall ref | ref in s'.tables.keys && ref.version > 1 ensures Backed(s', ref) {
      BackedLater(s, s', ref);
    }
  }

  lemma ProposeKeepsGood(s: State, client: nat, id: string, version: K.KeyVersion)
    requires Good(s)
    ensures Good(Protected(s, client, id, version))
  {
    hide Inv, AllOpen, Ordered, P.Opens, P.Protect;
    var record := P.Protect(version);
    if record.Ok? {
      P.ProtectionInverse(version, record.value);
      SameStore(s, Protected(s, client, id, version));
    }
  }

  lemma StoreKeepsGood(s: State, step: Step)
    requires Good(s) && Other(step)
    ensures Good(s.(tables := Apply(s.tables, step)))
  {
    hide Inv, Later, P.Opens, Ordered, Backed, Clients, Apply;
    var t' := Apply(s.tables, step);
    ApplyKeepsInv(s.tables, step);
    ApplyLater(s.tables, step);
    NewKeysAreFirst(s.tables, step);
    OrderedLater(s.tables, t');
    LaterKeepsGood(s, s.(tables := t'));
  }

  lemma NewKeysAreFirst(t: Tables, step: Step)
    requires Inv(t) && Other(step)
    ensures forall ref | ref in Apply(t, step).keys && ref !in t.keys ::
              ref.version == 1 && P.Opens(RecordOf(ref, Apply(t, step).keys[ref]))
    ensures Apply(t, step).verifications == t.verifications
  {
    hide Inv, P.Opens, P.ValidRecord;
    if (step.Bootstrap? && Bootstraps(t, step.key, step.packageId))
       || (step.Configure? && Matches(step.config, step.key))
    {
      assert RecordOf(step.key.ref, RowOf(step.key)) == step.key;
    }
    if step.Activate? && Activates(t, step.operationId) {
      ActivationFits(t, step.operationId);
    }
  }

  lemma SubmitKeepsGood(s: State, client: nat, now: int)
    requires Good(s) && At(s, client).Proposed?
    ensures Good(After(s, Submit(client, now)))
  {
    hide Inv, Later, P.Opens, P.ValidRecord, Ordered, Apply;
    var c := At(s, client);
    var step := Start(c.operationId, c.record, now);
    var s' := s.(tables := Apply(s.tables, step));
    ApplyKeepsInv(s.tables, step);
    ApplyLater(s.tables, step);
    ClientCurrent(s, client);
    StartAdds(s, c.operationId, c.record, now);
    OrderedLater(s.tables, s'.tables);
    LaterKeepsGood(s, s');
    assert Current(s', Idle);
    MoveIdle(s', client);
  }

  lemma MoveIdle(s: State, client: nat)
    requires Good(s)
    ensures Good(Move(s, client, Idle))
  {
    hide Inv, AllOpen, Ordered;
    SameStore(s, Move(s, client, Idle));
  }

  /** The key a start adds is the client's own. */
  lemma StartAdds(s: State, id: string, record: P.ProtectedKey, now: int)
    requires Inv(s.tables) && (id, record) in s.proposals && P.Opens(record)
    ensures Apply(s.tables, Start(id, record, now)).verifications == s.tables.verifications
    ensures forall ref, s' | s' == s.(tables := Apply(s.tables, Start(id, record, now)))
                             && ref in s'.tables.keys && ref !in s.tables.keys ::
              P.Opens(RecordOf(ref, s'.tables.keys[ref])) && Backed(s', ref)
  {
    hide Inv, P.Opens, P.ValidRecord;
    if Starts(s.tables, id, record) {
      var s' := s.(tables := Apply(s.tables, Start(id, record, now)));
      assert RecordOf(record.ref, RowOf(record)) == record;
      assert (id, record) in s'.proposals;
      assert Backed(s', record.ref);
    }
  }

  lemma RecordKeepsGood(s: State, client: nat, id: string, name: VerificationName, detail: string, now: int)
    requires Good(s) && IsActivated(s.tables, id)
    requires name.OpenBaoRoot? || (name.Restart? && RootSeen(s.tables, id))
    ensures Good(Move(s.(tables := Apply(s.tables, Record(id, name, detail, now))), client, Idle))
  {
    hide Inv, Later, P.Opens, Records, Backed, Clients;
    var step := Record(id, name, detail, now);
    var s' := s.(tables := Apply(s.tables, step));
    ApplyKeepsInv(s.tables, step);
    ApplyLater(s.tables, step);
    LaterKeepsGood(s, s');
    MoveIdle(s', client);
  }

  // ---------------------------------------------------------------------
  // Results over whole runs
  // ---------------------------------------------------------------------

  lemma AfterLater(s: State, e: Event)
    requires Inv(s.tables)
    ensures Later(s.tables, After(s, e).tables)
  {
    hide Inv, Later, Apply, ProposedRef, P.Protect;
    LaterRefl(s.tables);
    if e.Store? {
      ApplyLater(s.tables, e.step);
    } else if e.Submit? && At(s, e.client).Proposed? {
      ApplyLater(s.tables, Start(At(s, e.client).operationId, At(s, e.client).record, e.now));
    } else if e.RecordRoot? && At(s, e.client).RootDue? {
      ApplyLater(s.tables, Record(At(s, e.client).operationId, OpenBaoRoot, e.detail, e.now));
    } else if e.RecordRestart? && At(s, e.client).RestartDue? {
      ApplyLater(s.tables, Record(At(s, e.client).operationId, Restart, e.detail, e.now));
    }
  }

  lemma {:induction false} RunLater(s: State, events: seq<Event>)
    requires Good(s)
    ensures Later(s.tables, Run(s, events).tables)
    decreases |events|
  {
    hide Inv, AllBacked, AllOpen, Ordered, Clients, Later, After;
    if events == [] {
      LaterRefl(s.tables);
    } else {
      AfterKeepsGood(s, events[0]);
      AfterLater(s, events[0]);
      RunLater(After(s, events[0]), events[1..]);
      LaterTrans(s.tables, After(s, events[0]).tables, Run(s, events).tables);
    }
  }

  lemma InitialIsGood()
    ensures Good(INITIAL)
  {
  }

  /** What the commands make of an empty store. */
  ghost function Reached(events: seq<Event>): (s: State)
    ensures Good(s)
  {
    InitialIsGood();
    Run(INITIAL, events)
  }

  /** A restart verification is never there without the root verification, and
      neither is there before activation. */
  lemma RestartNeedsRoot(events: seq<Event>, id: string)
    ensures (id, Restart) in Reached(events).tables.verifications
            ==> (id, OpenBaoRoot) in Reached(events).tables.verifications
    ensures (id, OpenBaoRoot) in Reached(events).tables.verifications ==>
              id in Reached(events).tables.operations && Reached(events).tables.operations[id].status.Activated?
  {
    assert Ordered(Reached(events).tables);
  }

  /** Every version after the first belongs to exactly one operation and holds
      the payload that operation's client protected for exactly that version. */
  lemma EachVersionHasOneOperation(events: seq<Event>, ref: KeyRef)
    requires ref in Reached(events).tables.keys && ref.version > 1
    ensures exists p | p in Reached(events).proposals ::
              && p.1.ref == ref && p.1.payload == Reached(events).tables.keys[ref].payload
              && forall id | id in Reached(events).tables.operations ::
                   ToRef(Reached(events).tables.operations[id]) == ref <==> id == p.0
  {
    hide P.Opens, ValidRows, References, Shaped, Ordered, Clients, AllOpen, Run;
    var s := Reached(events);
    assert Backed(s, ref);
    var p :| p in s.proposals && p.1.ref == ref && Same(RowOf(p.1), s.tables.keys[ref])
             && p.0 in s.tables.operations && ToRef(s.tables.operations[p.0]) == ref;
    assert DistinctTargets(s.tables);
    assert p.1.payload == s.tables.keys[ref].payload;
  }

  // ---------------------------------------------------------------------
  // Commands that nothing disturbs
  // ---------------------------------------------------------------------

  /** The pending key a start command protects for a reference. */
  function Pending(ref: KeyRef, policyId: string, material: K.Bytes): P.ProtectedKey {
    P.ProtectedKey(ref, K.Pending, "AES-256-GCM", policyId, "development",
                   "openbao-attested-unseal.development-plaintext.v1", material)
  }

  lemma OneStep(s: State, e: Event, rest: seq<Event>)
    requires Good(s)
    ensures Good(After(s, e)) && Run(s, [e] + rest) == Run(After(s, e), rest)
  {
    hide Inv, AllBacked, AllOpen, Ordered, Clients, After;
    AfterKeepsGood(s, e);
    assert ([e] + rest)[1..] == rest;
  }

  lemma TwoSteps(s: State, a: Event, b: Event)
    requires Good(s)
    ensures Good(After(s, a)) && Run(s, [a, b]) == After(After(s, a), b)
  {
    hide Inv, AllBacked, AllOpen, Ordered, Clients, After;
    OneStep(s, a, [b]);
    OneStep(After(s, a), b, []);
    assert [a, b] == [a] + [b] && [b] == [b] + [];
  }

  /** Left undisturbed, a start command stores its own key under the reference it
      was told and starts one operation, exactly when the store would start it. */
  lemma UndisturbedStart(s: State, client: nat, c: string, k: string, id: string, policyId: string, material: K.Bytes,
                         now: int, ref: KeyRef)
    requires Good(s) && ProposedRef(s.tables, c, k) == Some(ref)
    requires K.ValidVersion(K.KeyVersion(ref, K.Pending, "AES-256-GCM", policyId, material))
    ensures if StartCondition(s.tables, id, Pending(ref, policyId, material))
            then StartWritten(s.tables,
                              Run(s, [Propose(client, c, k, id, policyId, material), Submit(client, now)]).tables,
                              id, Pending(ref, policyId, material), now)
            else Run(s, [Propose(client, c, k, id, policyId, material), Submit(client, now)]).tables == s.tables
  {
    hide Inv, AllBacked, AllOpen, Ordered, Clients, ProposedRef, P.Protect, P.ValidRecord, Apply, K.ValidVersion, Run,
         StartCondition, StartWritten;
    var propose := Propose(client, c, k, id, policyId, material);
    var record := Pending(ref, policyId, material);
    TwoSteps(s, propose, Submit(client, now));
    P.ProtectWrites(K.KeyVersion(ref, K.Pending, "AES-256-GCM", policyId, material), record);
    var s1 := After(s, propose);
    assert s1.tables == s.tables && At(s1, client) == Proposed(id, record);
    StartWrites(s.tables, id, record, now);
  }

  /** Left undisturbed, a root command records its verification of an activated
      operation, and records nothing of any other. */
  lemma UndisturbedRoot(s: State, client: nat, id: string, detail: string, now: int)
    requires Good(s) && At(s, client) == Idle && Text.TrimSpace(detail) != ""
    ensures if id in s.tables.operations && s.tables.operations[id].status == Activated
            then Sets(s.tables.verifications,
                      Run(s, [ReadForRoot(client, id), RecordRoot(client, detail, now)]).tables.verifications,
                      (id, OpenBaoRoot), Verification(now, detail))
            else Run(s, [ReadForRoot(client, id), RecordRoot(client, detail, now)]).tables == s.tables
  {
    hide Inv, AllBacked, AllOpen, Ordered, Clients, Apply, Text.TrimSpace, Run;
    TwoSteps(s, ReadForRoot(client, id), RecordRoot(client, detail, now));
    RecordWrites(s.tables, id, OpenBaoRoot, detail, now);
  }

  function RestartCommand(client: nat, id: string, detail: string, now: int): seq<Event> {
    [ReadForRestart(client, id), CheckRoot(client), RecordRestart(client, detail, now)]
  }

  /** Left undisturbed, a restart command records its verification of an activated
      operation with a root verification, and records nothing of any other. */
  lemma UndisturbedRestart(s: State, client: nat, id: string, detail: string, now: int)
    requires Good(s) && At(s, client) == Idle && Text.TrimSpace(detail) != ""
    ensures if id in s.tables.operations && s.tables.operations[id].status == Activated
               && (id, OpenBaoRoot) in s.tables.verifications
            then Sets(s.tables.verifications, Run(s, RestartCommand(client, id, detail, now)).tables.verifications,
                      (id, Restart), Verification(now, detail))
            else Run(s, RestartCommand(client, id, detail, now)).tables == s.tables
  {
    hide Inv, AllBacked, AllOpen, Ordered, Clients, Apply, Text.TrimSpace, Run;
    var e := RestartCommand(client, id, detail, now);
    OneStep(s, e[0], [e[1], e[2]]);
    assert e == [e[0]] + [e[1], e[2]];
    TwoSteps(After(s, e[0]), e[1], e[2]);
    RecordWrites(s.tables, id, Restart, detail, now);
  }

  /** Left undisturbed, an activation moves the two keys of a started operation,
      and changes nothing for any other. */
  lemma UndisturbedActivation(s: State, id: string, now: int)
    requires Good(s)
    ensures if id in s.tables.operations && s.tables.operations[id].status == Started
            then ActivationWritten(s.tables, Run(s, [Store(Activate(id, now))]).tables, id, s.tables.operations[id],
                                   now)
            else Run(s, [Store(Activate(id, now))]).tables == s.tables
  {
    hide Inv, AllBacked, AllOpen, Ordered, Clients, Apply, Run, ActivationWritten;
    var e := Store(Activate(id, now));
    OneStep(s, e, []);
    assert [e] == [e] + [];
    assert Run(After(s, e), []) == After(s, e) by { NoSteps(After(s, e)); }
    ActivateWrites(s.tables, id, now);
  }

  lemma NoSteps(s: State)
    requires Good(s)
    ensures Run(s, []) == s
  {
    hide Inv, AllBacked, AllOpen, Ordered, Clients;
  }

  /** Seeding with keys of the development protector and changes of subjects pass
      straight to the store. */
  lemma OtherCommands(s: State, step: Step)
    requires Good(s)
    requires step.AddSubject? || step.RevokeSubject? || ((step.Bootstrap? || step.Configure?) && P.Opens(step.key))
    ensures After(s, Store(step)) == s.(tables := Apply(s.tables, step))
  {
    hide Inv, AllBacked, AllOpen, Ordered, Clients, Apply, P.Opens;
  }
}
