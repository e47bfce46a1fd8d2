/** Wrap and unwrap decisions over whole runs. A request reads its subject,
    then its node's evidence, then consumes its challenge, then checks its key,
    each against the store of that moment; key transactions, the evidence
    protocol and other requests interleave between any two of these steps. */
module PolicyRuns {
  import opened KeyRefs
  import opened Results
  import C = Challenges
  import E = EvidenceRuns
  import S = EvidenceStore
  import KT = KeyTables
  import K = KeyTransactions
  import R = Keyring
  import Text
  import W = Workloads

  datatype Setup = Setup(broker: E.Broker, verifier: W.Verifier, checksEvidence: bool)

  datatype Ask = Ask(
    clusterId: string, subject: string, nodeName: string, nodeUid: string, operation: int, challengeId: string,
    key: KeyRef)

  /** The evidence a request read, at which clock and at which step of the run. */
  datatype Seen = Seen(record: S.Record, clock: int, tick: nat)

  datatype Request =
    | Done
    | Live(ask: Ask, subjectTick: nat)
    | Evidenced(ask: Ask, subjectTick: nat, seen: Option<Seen>)
    | Spent(ask: Ask, subjectTick: nat, seen: Option<Seen>, now: int, spendTick: nat)

  /** An allowed wrap or unwrap, with the steps of the run that decided it. */
  datatype Decision = Decision(
    request: nat, ask: Ask, subjectTick: nat, seen: Option<Seen>, now: int, spendTick: nat, keyTick: nat)

  datatype State = State(
    tables: KT.Tables, ev: E.State, requests: map<nat, Request>, allowed: seq<Decision>, tick: nat)

  datatype Event =
    | Keys(step: K.Step)
    | Evidence(event: E.Event)
    | Begin(request: nat, presented: W.Presented, operation: int, challengeId: string, key: KeyRef)
    | ReadEvidence(request: nat, clock: int)
    | SpendChallenge(request: nat, now: int)
    | CheckKey(request: nat)

  function At(s: State, request: nat): Request {
    if request in s.requests then s.requests[request] else Done
  }

  function Move(s: State, request: nat, to: Request): State {
    s.(requests := s.requests[request := to])
  }

  // ---------------------------------------------------------------------
  // Steps of a request
  // ---------------------------------------------------------------------

  predicate SubjectLive(t: KT.Tables, clusterId: string, subject: string) {
    subject != "" && (clusterId, subject) in t.subjects && !t.subjects[(clusterId, subject)]
  }

  predicate UidsAgree(ask: Ask, record: S.Record) {
    ask.nodeUid == "" || record.uid == "" || ask.nodeUid == record.uid
  }

  predicate NeedsEvidence(setup: Setup, ask: Ask) {
    setup.checksEvidence && ask.nodeName != ""
  }

  function NodeOf(ask: Ask): S.Node {
    S.Node(Text.TrimSpace(ask.clusterId), Text.TrimSpace(ask.nodeName))
  }

  function ClaimOf(ask: Ask, now: int): C.Claim {
    C.Claim(ask.challengeId, ask.clusterId, ask.subject, ask.operation, now)
  }

  predicate KeyUsable(t: KT.Tables, ask: Ask) {
    && ask.key in t.keys
    && if ask.operation == C.WRAP then t.keys[ask.key].status.Active? else R.Decrypts(t.keys[ask.key].status)
  }

  function AskOf(e: Event, claims: W.Claims): Ask
    requires e.Begin?
  {
    Ask(e.key.clusterId, claims.subject, claims.nodeName, claims.nodeUid, e.operation, e.challengeId, e.key)
  }

  function AfterBegin(setup: Setup, s: State, e: Event): State
    requires e.Begin?
  {
    if e.operation != C.WRAP && e.operation != C.UNWRAP then s
    else
      match W.Verify(setup.verifier, e.presented)
      case Err(_) => s
      case Ok(claims) =>
        var ask := AskOf(e, claims);
        if SubjectLive(s.tables, ask.clusterId, ask.subject) then Move(s, e.request, Live(ask, s.tick)) else s
  }

  function AfterReadEvidence(setup: Setup, s: State, request: nat, clock: int): State {
    match At(s, request)
    case Live(ask, subjectTick) => (
      if !NeedsEvidence(setup, ask) then Move(s, request, Evidenced(ask, subjectTick, None))
      else
        match S.Fresh(s.ev.st, ask.clusterId, ask.nodeName, clock)
        case Err(_) => Move(s, request, Done)
        case Ok(record) =>
          if UidsAgree(ask, record)
          then Move(s, request, Evidenced(ask, subjectTick, Some(Seen(record, clock, s.tick))))
          else Move(s, request, Done))
    case _ => s
  }

  function AfterSpend(setup: Setup, s: State, request: nat, now: int): State {
    match At(s, request)
    case Evidenced(ask, subjectTick, seen) =>
      var claim := ClaimOf(ask, now);
      if ask.challengeId != "" && C.Judge(s.ev.challenges, claim).Ok?
      then Move(s.(ev := E.After(setup.broker, s.ev, E.Spend(claim))), request,
                Spent(ask, subjectTick, seen, now, s.tick))
      else Move(s, request, Done)
    case _ => s
  }

  function AfterCheckKey(s: State, request: nat): State {
    match At(s, request)
    case Spent(ask, subjectTick, seen, now, spendTick) =>
      if KeyUsable(s.tables, ask)
      then Move(s.(allowed := s.allowed + [Decision(request, ask, subjectTick, seen, now, spendTick, s.tick)]),
                request, Done)
      else Move(s, request, Done)
    case _ => s
  }

  ghost function Act(setup: Setup, s: State, e: Event): State
    requires KT.Inv(s.tables)
  {
    match e
    case Keys(step) => s.(tables := K.Apply(s.tables, step))
    case Evidence(event) => s.(ev := E.After(setup.broker, s.ev, event))
    case Begin(_, _, _, _, _) => AfterBegin(setup, s, e)
    case ReadEvidence(request, clock) => AfterReadEvidence(setup, s, request, clock)
    case SpendChallenge(request, now) => AfterSpend(setup, s, request, now)
    case CheckKey(request) => AfterCheckKey(s, request)
  }

  ghost function After(setup: Setup, s: State, e: Event): State
    requires KT.Inv(s.tables)
  {
    var s' := Act(setup, s, e);
    s'.(tick := s.tick + 1)
  }

  // ---------------------------------------------------------------------
  // The invariant
  // ---------------------------------------------------------------------

  /** The challenge was issued for this cluster, subject and operation, had not
      expired when it was used, and is used up. */
  predicate PaidFor(challenges: map<string, C.Issued>, ask: Ask, now: int) {
    && ask.challengeId in challenges && challenges[ask.challengeId].consumed
    && var c := challenges[ask.challengeId].challenge;
    && c.clusterId == ask.clusterId && c.subject == ask.subject && c.operation == ask.operation
    && now < c.expiresAt
  }

  predicate AskOk(setup: Setup, ask: Ask) {
    && (ask.operation == C.WRAP || ask.operation == C.UNWRAP)
    && ask.subject != ""
    && (W.PodBound(setup.verifier) ==> ask.nodeName != "")
  }

  /** Verified under trust that was enrolled for this node and UID, or else
      synthetic while that was enabled. */
  predicate Grounded(setup: Setup, ev: E.State, node: S.Node, record: S.Record) {
    if record.provider == S.TPM_QUOTE then
      && record.revision.Some? && (node, record.revision.value) in ev.trusts
      && ev.trusts[(node, record.revision.value)].uid == record.uid
    else E.Enabled(setup.broker, S.FAKE_LOCAL)
  }

  /** Evidence was read where it was needed, fresh and for the same node. */
  predicate SeenOk(setup: Setup, s: State, ask: Ask, seen: Option<Seen>) {
    && (NeedsEvidence(setup, ask) <==> seen.Some?)
    && (seen.Some? ==>
          && seen.value.clock < seen.value.record.expiresAt && UidsAgree(ask, seen.value.record)
          && seen.value.tick < s.tick && Grounded(setup, s.ev, NodeOf(ask), seen.value.record))
  }

  predicate Known(t: KT.Tables, ask: Ask) {
    (ask.clusterId, ask.subject) in t.subjects
  }

  predicate RequestOk(setup: Setup, s: State, r: Request) {
    r.Done? ||
    (&& AskOk(setup, r.ask) && Known(s.tables, r.ask) && r.subjectTick < s.tick
     && (!r.Live? ==> SeenOk(setup, s, r.ask, r.seen))
     && (r.Spent? ==> PaidFor(s.ev.challenges, r.ask, r.now)))
  }

  predicate DecisionOk(setup: Setup, s: State, d: Decision) {
    && AskOk(setup, d.ask) && Known(s.tables, d.ask) && d.subjectTick < s.tick && SeenOk(setup, s, d.ask, d.seen)
    && PaidFor(s.ev.challenges, d.ask, d.now)
    && d.ask.key in s.tables.keys && R.Decrypts(s.tables.keys[d.ask.key].status)
  }

  ghost predicate Requests(setup: Setup, s: State) {
    forall r | r in s.requests :: RequestOk(setup, s, s.requests[r])
  }

  ghost predicate Decisions(setup: Setup, s: State) {
    forall i | 0 <= i < |s.allowed| :: DecisionOk(setup, s, s.allowed[i])
  }

  /** No challenge pays twice. */
  ghost predicate Separate(s: State) {
    && (forall i, j | 0 <= i < j < |s.allowed| :: s.allowed[i].ask.challengeId != s.allowed[j].ask.challengeId)
    && (forall i, r | 0 <= i < |s.allowed| && r in s.requests && s.requests[r].Spent? ::
          s.allowed[i].ask.challengeId != s.requests[r].ask.challengeId)
    && (forall q, r | q in s.requests && r in s.requests && q != r && s.requests[q].Spent? && s.requests[r].Spent? ::
          s.requests[q].ask.challengeId != s.requests[r].ask.challengeId)
  }

  ghost predicate Good(setup: Setup, s: State) {
    KT.Inv(s.tables) && E.Good(setup.broker, s.ev) && Requests(setup, s) && Decisions(setup, s) && Separate(s)
  }

  // ---------------------------------------------------------------------
  // What only ever moves onward
  // ---------------------------------------------------------------------

  /** Challenges stay as issued and stay used; enrolled trust stays on record. */
  ghost predicate Kept(a: E.State, b: E.State) {
    && (forall id | id in a.challenges :: id in b.challenges
          && b.challenges[id].challenge == a.challenges[id].challenge
          && (a.challenges[id].consumed ==> b.challenges[id].consumed))
    && (forall k | k in a.trusts :: k in b.trusts && b.trusts[k] == a.trusts[k])
  }

  lemma HistoryKept(b: E.Broker, s: E.State, e: E.Event)
    requires E.Good(b, s)
    ensures Kept(s, E.After(b, s, e))
  {
    hide E.Good, E.After;
    E.AfterOnward(b, s, e);
  }

  lemma RequestOnward(setup: Setup, s: State, s': State, r: Request)
    requires RequestOk(setup, s, r) && Kept(s.ev, s'.ev) && K.Later(s.tables, s'.tables) && s.tick <= s'.tick
    ensures RequestOk(setup, s', r)
  {
  }

  lemma DecisionOnward(setup: Setup, s: State, s': State, d: Decision)
    requires DecisionOk(setup, s, d) && Kept(s.ev, s'.ev) && K.Later(s.tables, s'.tables) && s.tick <= s'.tick
    ensures DecisionOk(setup, s', d)
  {
  }

  /** A step that leaves requests and decisions alone. */
  lemma StoreKeepsGood(setup: Setup, s: State, s': State)
    requires Good(setup, s) && s'.requests == s.requests && s'.allowed == s.allowed && s.tick <= s'.tick
    requires KT.Inv(s'.tables) && E.Good(setup.broker, s'.ev)
    requires Kept(s.ev, s'.ev) && K.Later(s.tables, s'.tables)
    ensures Good(setup, s')
  {
    hide KT.Inv, E.Good, Kept, K.Later, RequestOk, DecisionOk;
    forall r | r in s'.requests ensures RequestOk(setup, s', s'.requests[r]) {
      RequestOnward(setup, s, s', s.requests[r]);
    }
    forall i | 0 <= i < |s'.allowed| ensures DecisionOk(setup, s', s'.allowed[i]) {
      DecisionOnward(setup, s, s', s.allowed[i]);
    }
  }

  lemma TickKeepsGood(setup: Setup, s: State)
    requires Good(setup, s)
    ensures Good(setup, s.(tick := s.tick + 1))
  {
    hide KT.Inv, E.Good, Requests, Decisions, Separate, K.Later;
    K.LaterRefl(s.tables);
    StoreKeepsGood(setup, s, s.(tick := s.tick + 1));
  }

  /** Moving a request to a state in order, that spends nothing new. */
  lemma MoveKeepsGood(setup: Setup, s: State, request: nat, to: Request)
    requires Good(setup, s) && !to.Spent?
    requires RequestOk(setup, s.(tick := s.tick + 1), to)
    ensures Good(setup, Move(s, request, to).(tick := s.tick + 1))
  {
    hide KT.Inv, E.Good, K.Later, RequestOk, DecisionOk;
    var s' := Move(s, request, to).(tick := s.tick + 1);
    K.LaterRefl(s.tables);
    forall r | r in s'.requests ensures RequestOk(setup, s', s'.requests[r]) {
      if r == request {
        RequestOnward(setup, s.(tick := s.tick + 1), s', to);
      } else {
        RequestOnward(setup, s, s', s.requests[r]);
      }
    }
    forall i | 0 <= i < |s'.allowed| ensures DecisionOk(setup, s', s'.allowed[i]) {
      DecisionOnward(setup, s, s', s.allowed[i]);
    }
  }

  // ---------------------------------------------------------------------
  // Event by event
  // ---------------------------------------------------------------------

  lemma RequestIs(setup: Setup, s: State, request: nat)
    requires Requests(setup, s)
    ensures RequestOk(setup, s, At(s, request))
  {
  }

  lemma BeginKeepsGood(setup: Setup, s: State, e: Event)
    requires Good(setup, s) && e.Begin?
    ensures Good(setup, AfterBegin(setup, s, e).(tick := s.tick + 1))
  {
    hide Good, W.Verify, RequestOk;
    TickKeepsGood(setup, s);
    var claims := W.Verify(setup.verifier, e.presented);
    if claims.Ok? && (e.operation == C.WRAP || e.operation == C.UNWRAP) {
      var ask := AskOf(e, claims.value);
      if SubjectLive(s.tables, ask.clusterId, ask.subject) {
        if setup.verifier.Kubernetes? {
          W.VerifiedWorkload(setup.verifier, e.presented);
        }
        assert RequestOk(setup, s.(tick := s.tick + 1), Live(ask, s.tick)) by { LiveOk(setup, s, ask); }
        MoveKeepsGood(setup, s, e.request, Live(ask, s.tick));
      }
    }
  }

  lemma LiveOk(setup: Setup, s: State, ask: Ask)
    requires AskOk(setup, ask) && Known(s.tables, ask)
    ensures RequestOk(setup, s.(tick := s.tick + 1), Live(ask, s.tick))
  {
  }

  lemma StoredIsGrounded(setup: Setup, ev: E.State, node: S.Node)
    requires E.Good(setup.broker, ev) && node in ev.st.evidence
    ensures Grounded(setup, ev, node, ev.st.evidence[node])
  {
    hide E.QuoteMeets, E.Bound, E.History, E.Agents;
    assert E.Explained(setup.broker, ev, node);
  }

  lemma ReadEvidenceKeepsGood(setup: Setup, s: State, request: nat, clock: int)
    requires Good(setup, s)
    ensures Good(setup, AfterReadEvidence(setup, s, request, clock).(tick := s.tick + 1))
  {
    hide KT.Inv, E.Good, Requests, Decisions, Separate, Text.TrimSpace;
    TickKeepsGood(setup, s);
    RequestIs(setup, s, request);
    var r := At(s, request);
    if r.Live? {
      if !NeedsEvidence(setup, r.ask) {
        MoveKeepsGood(setup, s, request, Evidenced(r.ask, r.subjectTick, None));
      } else {
        var record := S.Fresh(s.ev.st, r.ask.clusterId, r.ask.nodeName, clock);
        if record.Ok? && UidsAgree(r.ask, record.value) {
          assert Grounded(setup, s.ev, NodeOf(r.ask), record.value) by { StoredIsGrounded(setup, s.ev, NodeOf(r.ask)); }
          MoveKeepsGood(setup, s, request, Evidenced(r.ask, r.subjectTick, Some(Seen(record.value, clock, s.tick))));
        } else {
          MoveKeepsGood(setup, s, request, Done);
        }
      }
    }
  }

  lemma SpendKeepsGood(setup: Setup, s: State, request: nat, now: int)
    requires Good(setup, s)
    ensures Good(setup, AfterSpend(setup, s, request, now).(tick := s.tick + 1))
  {
    hide KT.Inv, E.Good, E.After, Requests, Decisions, Separate;
    TickKeepsGood(setup, s);
    RequestIs(setup, s, request);
    var r := At(s, request);
    if r.Evidenced? {
      var claim := ClaimOf(r.ask, now);
      if r.ask.challengeId != "" && C.Judge(s.ev.challenges, claim).Ok? {
        SpentIsNew(setup, s, request, now);
      } else {
        MoveKeepsGood(setup, s, request, Done);
      }
    }
  }

  /** A challenge that was still unused had paid for nothing yet. */
  lemma SpentIsNew(setup: Setup, s: State, request: nat, now: int)
    requires Good(setup, s) && At(s, request).Evidenced?
    requires C.Judge(s.ev.challenges, ClaimOf(At(s, request).ask, now)).Ok?
    ensures forall r, s' | r == At(s, request)
                           && s' == Move(s.(ev := E.After(setup.broker, s.ev, E.Spend(ClaimOf(r.ask, now)))),
                                         request, Spent(r.ask, r.subjectTick, r.seen, now, s.tick)
                                        ).(tick := s.tick + 1) ::
              Good(setup, s')
  {
    hide KT.Inv, E.Good, E.After, K.Later, RequestOk, DecisionOk;
    var r := At(s, request);
    var claim := ClaimOf(r.ask, now);
    var mid := s.(ev := E.After(setup.broker, s.ev, E.Spend(claim)), tick := s.tick + 1);
    E.AfterKeepsGood(setup.broker, s.ev, E.Spend(claim));
    HistoryKept(setup.broker, s.ev, E.Spend(claim));
    K.LaterRefl(s.tables);
    StoreKeepsGood(setup, s, mid);
    var s' := Move(mid, request, Spent(r.ask, r.subjectTick, r.seen, now, s.tick));
    forall i | 0 <= i < |s.allowed| ensures s.allowed[i].ask.challengeId != claim.id {
      DecisionPaid(setup, s, s.allowed[i]);
    }
    forall q | q in s.requests && s.requests[q].Spent? ensures s.requests[q].ask.challengeId != claim.id {
      RequestIs(setup, s, q);
      RequestPaid(setup, s, s.requests[q]);
    }
    forall q | q in s'.requests ensures RequestOk(setup, s', s'.requests[q]) {
      if q == request {
        RequestIs(setup, s, request);
        SpentOk(setup, s, s', r, now);
      } else {
        RequestOnward(setup, mid, s', mid.requests[q]);
      }
    }
    forall i | 0 <= i < |s'.allowed| ensures DecisionOk(setup, s', s'.allowed[i]) {
      DecisionOnward(setup, mid, s', mid.allowed[i]);
    }
    assert Separate(s');
  }

  lemma DecisionPaid(setup: Setup, s: State, d: Decision)
    requires DecisionOk(setup, s, d)
    ensures d.ask.challengeId in s.ev.challenges && s.ev.challenges[d.ask.challengeId].consumed
  {
  }

  lemma RequestPaid(setup: Setup, s: State, r: Request)
    requires r.Spent? && RequestOk(setup, s, r)
    ensures r.ask.challengeId in s.ev.challenges && s.ev.challenges[r.ask.challengeId].consumed
  {
  }

  lemma SpentOk(setup: Setup, s: State, s': State, r: Request, now: int)
    requires r.Evidenced? && RequestOk(setup, s, r) && s'.tables == s.tables && s'.tick == s.tick + 1
    requires C.Judge(s.ev.challenges, ClaimOf(r.ask, now)).Ok?
    requires s'.ev == E.After(setup.broker, s.ev, E.Spend(ClaimOf(r.ask, now)))
    ensures RequestOk(setup, s', Spent(r.ask, r.subjectTick, r.seen, now, s.tick))
  {
  }

  lemma CheckKeyKeepsGood(setup: Setup, s: State, request: nat)
    requires Good(setup, s)
    ensures Good(setup, AfterCheckKey(s, request).(tick := s.tick + 1))
  {
    hide KT.Inv, E.Good, Requests, Decisions, Separate;
    TickKeepsGood(setup, s);
    RequestIs(setup, s, request);
    var r := At(s, request);
    if r.Spent? {
      if KeyUsable(s.tables, r.ask) {
        AllowKeepsGood(setup, s, request);
        var d := DecisionOf(s, request);
        assert AfterCheckKey(s, request).(tick := s.tick + 1)
            == Move(s, request, Done).(allowed := s.allowed + [d], tick := s.tick + 1);
      } else {
        MoveKeepsGood(setup, s, request, Done);
      }
    }
  }

  /** The decision that allows a request at this step. */
  function DecisionOf(s: State, request: nat): Decision
    requires At(s, request).Spent?
  {
    var r := At(s, request);
    Decision(request, r.ask, r.subjectTick, r.seen, r.now, r.spendTick, s.tick)
  }

  lemma AllowKeepsGood(setup: Setup, s: State, request: nat)
    requires Good(setup, s) && At(s, request).Spent? && KeyUsable(s.tables, At(s, request).ask)
    ensures Good(setup, Move(s, request, Done).(
                            allowed := s.allowed + [DecisionOf(s, request)], tick := s.tick + 1))
  {
    hide KT.Inv, E.Good, DecisionOk, RequestOk;
    var r := At(s, request);
    var mid := Move(s, request, Done).(tick := s.tick + 1);
    DoneOk(setup, s.(tick := s.tick + 1));
    MoveKeepsGood(setup, s, request, Done);
    var d := DecisionOf(s, request);
    var s' := mid.(allowed := s.allowed + [d]);
    forall q | q in s'.requests ensures RequestOk(setup, s', s'.requests[q]) {
      RequestOnward(setup, mid, s', mid.requests[q]);
    }
    forall i | 0 <= i < |s'.allowed| ensures DecisionOk(setup, s', s'.allowed[i]) {
      if i == |s.allowed| {
        RequestIs(setup, s, request);
        AllowedOk(setup, s, s', r, d);
      } else {
        K.LaterRefl(s.tables);
        DecisionOnward(setup, mid, s', mid.allowed[i]);
      }
    }
    assert Separate(s');
  }

  lemma DoneOk(setup: Setup, s: State)
    ensures RequestOk(setup, s, Done)
  {
  }

  lemma AllowedOk(setup: Setup, s: State, s': State, r: Request, d: Decision)
    requires r.Spent? && RequestOk(setup, s, r) && KeyUsable(s.tables, r.ask)
    requires d.ask == r.ask && d.subjectTick == r.subjectTick && d.seen == r.seen && d.now == r.now
    requires s'.ev == s.ev && s'.tables == s.tables && s'.tick == s.tick + 1
    ensures DecisionOk(setup, s', d)
  {
  }

  lemma AfterKeepsGood(setup: Setup, s: State, e: Event)
    requires Good(setup, s)
    ensures Good(setup, After(setup, s, e))
  {
    hide KT.Inv, E.Good, E.After, K.Apply, Kept, K.Later, Requests, Decisions, Separate,
         AfterBegin, AfterReadEvidence, AfterSpend, AfterCheckKey;
    match e
    case Keys(step) =>
      K.ApplyKeepsInv(s.tables, step);
      K.ApplyLater(s.tables, step);
      KeptRefl(s.ev);
      StoreKeepsGood(setup, s, After(setup, s, e));
    case Evidence(event) =>
      E.AfterKeepsGood(setup.broker, s.ev, event);
      HistoryKept(setup.broker, s.ev, event);
      K.LaterRefl(s.tables);
      StoreKeepsGood(setup, s, After(setup, s, e));
    case Begin(_, _, _, _, _) => BeginKeepsGood(setup, s, e);
    case ReadEvidence(request, clock) => ReadEvidenceKeepsGood(setup, s, request, clock);
    case SpendChallenge(request, now) => SpendKeepsGood(setup, s, request, now);
    case CheckKey(request) => CheckKeyKeepsGood(setup, s, request);
  }

  lemma KeptRefl(ev: E.State)
    ensures Kept(ev, ev)
  {
  }

  ghost function Run(setup: Setup, s: State, events: seq<Event>): (s': State)
    requires Good(setup, s)
    ensures Good(setup, s')
    decreases |events|
  {
    if events == [] then s
    else
      AfterKeepsGood(setup, s, events[0]);
      Run(setup, After(setup, s, events[0]), events[1..])
  }

  /** An empty store and nothing under way. */
  function Start(clusters: set<string>): State {
    State(KT.EMPTY, E.Initial(clusters), map[], [], 0)
  }

  lemma InitialGood(setup: Setup, clusters: set<string>)
    ensures Good(setup, Start(clusters))
  {
    hide KT.Inv;
    K.EmptyInv();
  }

  ghost function Reached(setup: Setup, clusters: set<string>, events: seq<Event>): (s: State)
    ensures Good(setup, s)
  {
    InitialGood(setup, clusters);
    Run(setup, Start(clusters), events)
  }

  // ---------------------------------------------------------------------
  // Results over whole runs
  // ---------------------------------------------------------------------

  /** Allowed decisions map injectively to issued challenges of the same cluster,
      subject and operation, unexpired when used, and their keys still decrypt. */
  lemma AllowsArePaid(setup: Setup, clusters: set<string>, events: seq<Event>, i: nat, j: nat)
    requires i < |Reached(setup, clusters, events).allowed| && j < |Reached(setup, clusters, events).allowed|
    ensures forall s, d | s == Reached(setup, clusters, events) && d == s.allowed[i] ::
              && PaidFor(s.ev.challenges, d.ask, d.now)
              && (d.ask.operation == C.WRAP || d.ask.operation == C.UNWRAP)
              && d.ask.key in s.tables.keys && R.Decrypts(s.tables.keys[d.ask.key].status)
              && (d.ask.challengeId == s.allowed[j].ask.challengeId ==> i == j)
  {
    hide KT.Inv, E.Good, Run, Requests, PaidFor;
    var s := Reached(setup, clusters, events);
    assert DecisionOk(setup, s, s.allowed[i]);
    if i < j {
      assert s.allowed[i].ask.challengeId != s.allowed[j].ask.challengeId;
    } else if j < i {
      assert s.allowed[j].ask.challengeId != s.allowed[i].ask.challengeId;
    }
  }

  /** Where pod binding is required and evidence is checked, every allowed
      request named its node and read evidence of it that was fresh, agreed on
      the UID and, unless synthetic evidence is on, was verified under trust
      enrolled for that node. */
  lemma PodBoundAllows(setup: Setup, clusters: set<string>, events: seq<Event>, i: nat)
    requires W.PodBound(setup.verifier) && setup.checksEvidence
    requires i < |Reached(setup, clusters, events).allowed|
    ensures forall s, d | s == Reached(setup, clusters, events) && d == s.allowed[i] ::
              && d.ask.nodeName != "" && d.seen.Some?
              && d.seen.value.clock < d.seen.value.record.expiresAt
              && UidsAgree(d.ask, d.seen.value.record)
              && (E.FakeOff(setup.broker) ==>
                    && d.seen.value.record.revision.Some?
                    && (NodeOf(d.ask), d.seen.value.record.revision.value) in s.ev.trusts
                    && s.ev.trusts[(NodeOf(d.ask), d.seen.value.record.revision.value)].uid == d.seen.value.record.uid)
  {
    hide KT.Inv, E.Good, Run, Requests, PaidFor, Separate, Text.TrimSpace;
    var s := Reached(setup, clusters, events);
    assert DecisionOk(setup, s, s.allowed[i]);
  }

  /** A revoked subject, with no request of it past its subject check later
      than step `since`. */
  ghost predicate SubjectOut(s: State, c: string, subject: string, since: nat) {
    && (c, subject) in s.tables.subjects && s.tables.subjects[(c, subject)]
    && (forall r | r in s.requests && !s.requests[r].Done?
                   && s.requests[r].ask.clusterId == c && s.requests[r].ask.subject == subject ::
          s.requests[r].subjectTick < since)
    && (forall i | 0 <= i < |s.allowed| && s.allowed[i].ask.clusterId == c && s.allowed[i].ask.subject == subject ::
          s.allowed[i].subjectTick < since)
  }

  lemma SubjectStaysOut(setup: Setup, s: State, e: Event, c: string, subject: string, since: nat)
    requires Good(setup, s) && SubjectOut(s, c, subject, since)
    ensures SubjectOut(After(setup, s, e), c, subject, since)
  {
    hide KT.Inv, E.Good, E.After, K.Apply, Requests, Decisions, Separate, Text.TrimSpace, W.Verify, S.Fresh, KeyUsable,
         UidsAgree;
    if e.Keys? {
      K.ApplyLater(s.tables, e.step);
      assert (c, subject) in s.tables.subjects;
    }
  }

  lemma {:induction false} SubjectStaysOutAlong(setup: Setup, s: State, events: seq<Event>,
                                                c: string, subject: string, since: nat)
    requires Good(setup, s) && SubjectOut(s, c, subject, since)
    ensures SubjectOut(Run(setup, s, events), c, subject, since)
    decreases |events|
  {
    hide KT.Inv, E.Good, After, SubjectOut, Requests, Decisions, Separate;
    if events != [] {
      AfterKeepsGood(setup, s, events[0]);
      SubjectStaysOut(setup, s, events[0], c, subject, since);
      SubjectStaysOutAlong(setup, After(setup, s, events[0]), events[1..], c, subject, since);
    }
  }

  /** Once a subject is revoked, whatever is enrolled, configured or restarted
      afterwards, every request of it that is ever allowed had its subject read
      before the revocation. */
  lemma RevokedSubjectIsDenied(setup: Setup, s: State, events: seq<Event>, c: string, subject: string, i: nat)
    requires Good(setup, s) && (c, subject) in s.tables.subjects && s.tables.subjects[(c, subject)]
    requires i < |Run(setup, s, events).allowed|
    requires Run(setup, s, events).allowed[i].ask.clusterId == c
            && Run(setup, s, events).allowed[i].ask.subject == subject
    ensures Run(setup, s, events).allowed[i].subjectTick < s.tick
  {
    hide KT.Inv, E.Good, Separate, Run, PaidFor, SeenOk, AskOk;
    assert SubjectOut(s, c, subject, s.tick) by {
      forall r | r in s.requests && !s.requests[r].Done? ensures s.requests[r].subjectTick < s.tick {
        assert RequestOk(setup, s, s.requests[r]);
      }
      forall k | 0 <= k < |s.allowed| ensures s.allowed[k].subjectTick < s.tick {
        assert DecisionOk(setup, s, s.allowed[k]);
      }
    }
    SubjectStaysOutAlong(setup, s, events, c, subject, s.tick);
  }

  predicate EvidenceMet(setup: Setup, s: State, ask: Ask, clock: int) {
    NeedsEvidence(setup, ask) ==>
      S.Fresh(s.ev.st, ask.clusterId, ask.nodeName, clock).Ok?
      && UidsAgree(ask, S.Fresh(s.ev.st, ask.clusterId, ask.nodeName, clock).value)
  }

  /** The steps a request has left. */
  function Remaining(r: Request, request: nat, clock: int, now: int): seq<Event> {
    match r
    case Done => []
    case Live(_, _) => [ReadEvidence(request, clock), SpendChallenge(request, now), CheckKey(request)]
    case Evidenced(_, _, _) => [SpendChallenge(request, now), CheckKey(request)]
    case Spent(_, _, _, _, _) => [CheckKey(request)]
  }

  predicate ChallengeMet(s: State, ask: Ask, now: int) {
    ask.challengeId != "" && C.Judge(s.ev.challenges, ClaimOf(ask, now)).Ok?
  }

  /** What those steps will find in order. */
  predicate InOrder(setup: Setup, s: State, r: Request, clock: int, now: int) {
    match r
    case Done => false
    case Live(ask, _) => EvidenceMet(setup, s, ask, clock) && ChallengeMet(s, ask, now) && KeyUsable(s.tables, ask)
    case Evidenced(ask, _, _) => ChallengeMet(s, ask, now) && KeyUsable(s.tables, ask)
    case Spent(ask, _, _, _, _) => KeyUsable(s.tables, ask)
  }

  /** The store's tables are as before, and the request alone was added to the
      allowed ones, or nothing was. */
  ghost predicate Finished(s: State, r: Request, s': State, allowed: bool) {
    && s'.tables == s.tables && s'.ev.st == s.ev.st
    && if !allowed then s'.allowed == s.allowed
       else
         && !r.Done? && |s'.allowed| == |s.allowed| + 1 && s'.allowed[..|s.allowed|] == s.allowed
         && var d := s'.allowed[|s.allowed|];
         && d.ask == r.ask && d.subjectTick == r.subjectTick && (!r.Live? ==> d.seen == r.seen)
  }

  /** A request under way that is left undisturbed is allowed if and only if what
      it has not yet read is in order: what it has read plays no part any more. */
  lemma UndisturbedRequest(setup: Setup, s: State, request: nat, clock: int, now: int)
    requires Good(setup, s)
    ensures Finished(s, At(s, request), Run(setup, s, Remaining(At(s, request), request, clock, now)),
                     InOrder(setup, s, At(s, request), clock, now))
  {
    hide KT.Inv, E.Good, Requests, Decisions, Separate, After, InOrder;
    var r := At(s, request);
    match r
    case Done =>
      DoneIsOver(setup, s, clock, now);
    case Live(ask, _) =>
      OneStep(setup, s, ReadEvidence(request, clock), [SpendChallenge(request, now), CheckKey(request)]);
      LiveStep(setup, s, request, clock, now);
      DoneIsOver(setup, After(setup, s, ReadEvidence(request, clock)), clock, now);
      FromEvidenced(setup, After(setup, s, ReadEvidence(request, clock)), request, clock, now);
    case Evidenced(ask, _, _) =>
      FromEvidenced(setup, s, request, clock, now);
    case Spent(ask, _, _, _, _) =>
      FromSpent(setup, s, request, clock, now);
  }

  lemma DoneIsOver(setup: Setup, s: State, clock: int, now: int)
    ensures !InOrder(setup, s, Done, clock, now)
  {
  }

  lemma OneStep(setup: Setup, s: State, e: Event, rest: seq<Event>)
    requires Good(setup, s)
    ensures Good(setup, After(setup, s, e)) && Run(setup, s, [e] + rest) == Run(setup, After(setup, s, e), rest)
  {
    hide KT.Inv, E.Good, Act, After, Requests, Decisions, Separate;
    AfterKeepsGood(setup, s, e);
    assert ([e] + rest)[1..] == rest;
  }

  /** One step of a request: to the next state or to its end, with nothing else
      changed that the rest of it looks at. */
  ghost predicate Stepped(setup: Setup, s: State, s': State, request: nat, clock: int, now: int) {
    var r, r' := At(s, request), At(s', request);
    && s'.tables == s.tables && s'.ev.st == s.ev.st && s'.allowed == s.allowed
    && (!r'.Done? ==> !r.Done? && r'.ask == r.ask && r'.subjectTick == r.subjectTick)
    && (InOrder(setup, s', r', clock, now) <==> InOrder(setup, s, r, clock, now))
  }

  lemma LiveStep(setup: Setup, s: State, request: nat, clock: int, now: int)
    requires Good(setup, s) && At(s, request).Live?
    ensures Stepped(setup, s, After(setup, s, ReadEvidence(request, clock)), request, clock, now)
    ensures forall r | r == At(After(setup, s, ReadEvidence(request, clock)), request) :: r.Evidenced? || r.Done?
  {
    hide KT.Inv, E.Good, E.After, Requests, Decisions, Separate, C.Judge, KeyUsable, UidsAgree, S.Fresh;
  }

  lemma FromEvidenced(setup: Setup, s: State, request: nat, clock: int, now: int)
    requires Good(setup, s) && (At(s, request).Evidenced? || At(s, request).Done?)
    ensures Finished(s, At(s, request), Run(setup, s, [SpendChallenge(request, now), CheckKey(request)]),
                     InOrder(setup, s, At(s, request), clock, now))
  {
    hide KT.Inv, E.Good, Requests, Decisions, Separate, After, InOrder;
    OneStep(setup, s, SpendChallenge(request, now), [CheckKey(request)]);
    SpendStep(setup, s, request, clock, now);
    DoneIsOver(setup, After(setup, s, SpendChallenge(request, now)), clock, now);
    FromSpent(setup, After(setup, s, SpendChallenge(request, now)), request, clock, now);
  }

  lemma SpendStep(setup: Setup, s: State, request: nat, clock: int, now: int)
    requires Good(setup, s) && (At(s, request).Evidenced? || At(s, request).Done?)
    ensures Stepped(setup, s, After(setup, s, SpendChallenge(request, now)), request, clock, now)
    ensures forall r | r == At(After(setup, s, SpendChallenge(request, now)), request) ::
              r.Done? || (r.Spent? && At(s, request).Evidenced? && r.seen == At(s, request).seen)
  {
    hide KT.Inv, E.Good, Requests, Decisions, Separate, C.Judge, C.Consumed, KeyUsable;
  }

  lemma FromSpent(setup: Setup, s: State, request: nat, clock: int, now: int)
    requires Good(setup, s) && (At(s, request).Spent? || At(s, request).Done?)
    ensures Finished(s, At(s, request), Run(setup, s, [CheckKey(request)]),
            InOrder(setup, s, At(s, request), clock, now))
  {
    hide KT.Inv, E.Good, Requests, Decisions, Separate, KeyUsable, Run;
    OneStep(setup, s, CheckKey(request), []);
    assert [CheckKey(request)] == [CheckKey(request)] + [];
    NoSteps(setup, After(setup, s, CheckKey(request)));
  }

  lemma NoSteps(setup: Setup, s: State)
    requires Good(setup, s)
    ensures Run(setup, s, []) == s
  {
    hide Good;
  }

  lemma {:induction false} RunConcat(setup: Setup, s: State, xs: seq<Event>, ys: seq<Event>)
    requires Good(setup, s)
    ensures Run(setup, s, xs + ys) == Run(setup, Run(setup, s, xs), ys)
    decreases |xs|
  {
    hide KT.Inv, E.Good, Requests, Decisions, Separate, After, Run;
    if xs == [] {
      assert xs + ys == ys;
      NoSteps(setup, s);
    } else {
      assert xs + ys == [xs[0]] + (xs[1..] + ys) && xs == [xs[0]] + xs[1..];
      OneStep(setup, s, xs[0], xs[1..] + ys);
      OneStep(setup, s, xs[0], xs[1..]);
      RunConcat(setup, After(setup, s, xs[0]), xs[1..], ys);
    }
  }

  function Lift(events: seq<E.Event>): seq<Event> {
    seq(|events|, i requires 0 <= i < |events| => Evidence(events[i]))
  }

  /** Events of the evidence protocol alone run as they do there. */
  lemma {:induction false} LiftRuns(setup: Setup, s: State, events: seq<E.Event>)
    requires Good(setup, s)
    ensures Run(setup, s, Lift(events)) == s.(ev := E.Run(setup.broker, s.ev, events), tick := s.tick + |events|)
    decreases |events|
  {
    hide KT.Inv, E.Good, E.After, Requests, Decisions, Separate, Run;
    if events == [] {
      assert Lift(events) == [];
      NoSteps(setup, s);
    } else {
      assert Lift(events) == [Evidence(events[0])] + Lift(events[1..]);
      OneStep(setup, s, Evidence(events[0]), Lift(events[1..]));
      LiftRuns(setup, After(setup, s, Evidence(events[0])), events[1..]);
    }
  }

  /** The exact condition under which a revoked subject is still allowed: its
      request had read the subject before the revocation, and the rest of it is
      in order. Nothing of it begins afterwards. */
  lemma RevokedSubjectExactly(setup: Setup, s: State, c: string, subject: string, request: nat, clock: int, now: int,
                              e: Event)
    requires Good(setup, s) && (c, subject) in s.tables.subjects && s.tables.subjects[(c, subject)]
    ensures forall r | r == At(s, request) && !r.Done? && r.ask.clusterId == c && r.ask.subject == subject ::
              && r.subjectTick < s.tick
              && (|Run(setup, s, Remaining(r, request, clock, now)).allowed| > |s.allowed|
                 <==> InOrder(setup, s, r, clock, now))
    ensures forall claims | e.Begin? && W.Verify(setup.verifier, e.presented) == Ok(claims)
                            && e.key.clusterId == c && claims.subject == subject ::
              After(setup, s, e) == s.(tick := s.tick + 1)
  {
    hide KT.Inv, E.Good, Run, Decisions, Separate, InOrder, W.Verify, Remaining;
    UndisturbedRequest(setup, s, request, clock, now);
    RequestIs(setup, s, request);
  }

  predicate Inactive(st: S.Store, node: S.Node) {
    node in st.enrollments ==> st.enrollments[node].revokedAt.Some?
  }

  predicate Enrolling(e: Event, node: S.Node) {
    e.Evidence? && e.event.Enroll? && S.TrustOf(e.event.request).node == node
  }

  lemma StaysInactive(b: E.Broker, s: E.State, e: E.Event, node: S.Node)
    requires Inactive(s.st, node) && (e.Enroll? ==> S.TrustOf(e.request).node != node)
    ensures Inactive(E.After(b, s, e).st, node)
  {
    hide E.Verifies, E.Authorizes, E.Admitted, S.ValidRequest, S.Normalized, S.TrustOf, S.Kept, C.Judge, C.Consumed;
  }

  /** A node without active trust, with no request past its evidence check later
      than step `since`. */
  ghost predicate NodeOut(s: State, node: S.Node, since: nat) {
    && Inactive(s.ev.st, node)
    && (forall r | r in s.requests && (s.requests[r].Evidenced? || s.requests[r].Spent?)
       && NodeOf(s.requests[r].ask) == node ::
          s.requests[r].seen.Some? ==> s.requests[r].seen.value.tick < since)
    && (forall i | 0 <= i < |s.allowed| && NodeOf(s.allowed[i].ask) == node ::
          s.allowed[i].seen.Some? ==> s.allowed[i].seen.value.tick < since)
  }

  lemma NodeStaysOut(setup: Setup, s: State, e: Event, node: S.Node, since: nat)
    requires Good(setup, s) && E.FakeOff(setup.broker) && NodeOut(s, node, since) && !Enrolling(e, node)
    ensures NodeOut(After(setup, s, e), node, since)
  {
    hide KT.Inv, E.Good, E.After, K.Apply, Requests, Decisions, Separate, Text.TrimSpace, W.Verify, KeyUsable,
         UidsAgree,
         S.TrustOf, E.FakeOff, Inactive;
    if e.Evidence? {
      StaysInactive(setup.broker, s.ev, e.event, node);
    } else if e.SpendChallenge? && At(s, e.request).Evidenced? {
      StaysInactive(setup.broker, s.ev, E.Spend(ClaimOf(At(s, e.request).ask, e.now)), node);
    } else if e.ReadEvidence? && At(s, e.request).Live? && NodeOf(At(s, e.request).ask) == node {
      NoEvidence(setup.broker, s.ev, node);
    }
  }

  lemma NoEvidence(b: E.Broker, ev: E.State, node: S.Node)
    requires E.Good(b, ev) && E.FakeOff(b) && Inactive(ev.st, node)
    ensures node !in ev.st.evidence
  {
    hide E.Good;
    if node in ev.st.evidence {
      E.EvidenceMeansEnrolled(b, ev, node);
    }
  }

  lemma {:induction false} NodeStaysOutAlong(setup: Setup, s: State, events: seq<Event>, node: S.Node, since: nat)
    requires Good(setup, s) && E.FakeOff(setup.broker) && NodeOut(s, node, since)
    requires forall k | 0 <= k < |events| :: !Enrolling(events[k], node)
    ensures NodeOut(Run(setup, s, events), node, since)
    decreases |events|
  {
    hide KT.Inv, E.Good, After, NodeOut, Requests, Decisions, Separate, E.FakeOff, Enrolling;
    if events != [] {
      AfterKeepsGood(setup, s, events[0]);
      NodeStaysOut(setup, s, events[0], node, since);
      NodeStaysOutAlong(setup, After(setup, s, events[0]), events[1..], node, since);
    }
  }

  /** While synthetic evidence is off and a revoked node is not enrolled again,
      every allowed request on it had its evidence read before the revocation. */
  lemma RevokedNodeIsDenied(setup: Setup, s: State, events: seq<Event>, node: S.Node, i: nat)
    requires Good(setup, s) && E.FakeOff(setup.broker) && setup.checksEvidence && Inactive(s.ev.st, node)
    requires forall k | 0 <= k < |events| :: !Enrolling(events[k], node)
    requires i < |Run(setup, s, events).allowed| && Run(setup, s, events).allowed[i].ask.nodeName != ""
    requires NodeOf(Run(setup, s, events).allowed[i].ask) == node
    ensures Run(setup, s, events).allowed[i].seen.Some? && Run(setup, s, events).allowed[i].seen.value.tick < s.tick
  {
    hide KT.Inv, E.Good, Separate, Run, PaidFor, AskOk, E.FakeOff, Enrolling, Grounded, Text.TrimSpace, Inactive;
    assert NodeOut(s, node, s.tick) by {
      forall r | r in s.requests && (s.requests[r].Evidenced? || s.requests[r].Spent?)
        ensures s.requests[r].seen.Some? ==> s.requests[r].seen.value.tick < s.tick
      {
        assert RequestOk(setup, s, s.requests[r]);
      }
      forall k | 0 <= k < |s.allowed| ensures s.allowed[k].seen.Some? ==> s.allowed[k].seen.value.tick < s.tick {
        assert DecisionOk(setup, s, s.allowed[k]);
      }
    }
    NodeStaysOutAlong(setup, s, events, node, s.tick);
    var s' := Run(setup, s, events);
    assert DecisionOk(setup, s', s'.allowed[i]);
  }

  /** The exact condition under which a request on a node without active trust is
      still allowed: it had read its evidence before, and the rest of it is in
      order. A request still to read it is denied. */
  lemma RevokedNodeExactly(setup: Setup, s: State, node: S.Node, request: nat, clock: int, now: int)
    requires Good(setup, s) && E.FakeOff(setup.broker) && setup.checksEvidence && Inactive(s.ev.st, node)
    ensures forall r | r == At(s, request) && !r.Done? && r.ask.nodeName != "" && NodeOf(r.ask) == node ::
              && (r.Live? ==> !InOrder(setup, s, r, clock, now))
              && (!r.Live? ==> r.seen.Some? && r.seen.value.tick < s.tick)
              && (|Run(setup, s, Remaining(r, request, clock, now)).allowed| > |s.allowed|
                 <==> InOrder(setup, s, r, clock, now))
  {
    hide KT.Inv, E.Good, Run, Decisions, Separate, Remaining, Inactive, E.FakeOff, Text.TrimSpace, ChallengeMet,
         KeyUsable, PaidFor;
    UndisturbedRequest(setup, s, request, clock, now);
    RequestIs(setup, s, request);
    NoEvidence(setup.broker, s.ev, node);
  }
}
