/** Why a wrap or unwrap was allowed, told by the run itself: each of its four
    reads is a step of the run, and what it needed stood in the store as that
    step found it. */
module Justifications {
  import opened KeyRefs
  import opened PolicyRuns
  import opened Results
  import C = Challenges
  import E = EvidenceRuns
  import S = EvidenceStore
  import KT = KeyTables
  import K = KeyTransactions
  import Text
  import W = Workloads

  /** What step `k` of a run from an empty store finds. */
  ghost function Found(setup: Setup, clusters: set<string>, events: seq<Event>, k: nat): State
    requires k <= |events|
  {
    Reached(setup, clusters, events[..k])
  }

  /** Step `k` began this request with a verified payload, and found its subject
      enrolled and not revoked. */
  ghost predicate SubjectRead(setup: Setup, clusters: set<string>, events: seq<Event>, request: nat, ask: Ask, k: nat) {
    && k < |events|
    && events[k].Begin? && events[k].request == request
    && (events[k].operation, events[k].challengeId, events[k].key) == (ask.operation, ask.challengeId, ask.key)
    && ask.operation in {C.WRAP, C.UNWRAP} && ask.clusterId == ask.key.clusterId
    && W.Verify(setup.verifier, events[k].presented).Ok?
    && var claims := W.Verify(setup.verifier, events[k].presented).value;
    && (claims.subject, claims.nodeName, claims.nodeUid) == (ask.subject, ask.nodeName, ask.nodeUid)
    && ask.subject != ""
    && var t := Found(setup, clusters, events, k).tables;
    && (ask.clusterId, ask.subject) in t.subjects && !t.subjects[(ask.clusterId, ask.subject)]
  }

  /** Where evidence is checked and a node is named, a step after `k` found the
      node's evidence fresh and of the same UID where both are known. */
  ghost predicate EvidenceRead(setup: Setup, clusters: set<string>, events: seq<Event>, request: nat, ask: Ask, k: nat,
                               seen: Option<Seen>)
  {
    if !setup.checksEvidence || ask.nodeName == "" then seen.None?
    else
      && seen.Some? && k < seen.value.tick < |events|
      && events[seen.value.tick] == ReadEvidence(request, seen.value.clock)
      && var node := S.Node(Text.TrimSpace(ask.clusterId), Text.TrimSpace(ask.nodeName));
      && var evidence := Found(setup, clusters, events, seen.value.tick).ev.st.evidence;
      && node in evidence && evidence[node] == seen.value.record
      && seen.value.clock < seen.value.record.expiresAt
      && (ask.nodeUid == "" || seen.value.record.uid == "" || ask.nodeUid == seen.value.record.uid)
  }

  /** A step after those reads found the challenge unused, issued for this
      cluster, subject and operation, and not yet expired. */
  ghost predicate ChallengeRead(setup: Setup, clusters: set<string>, events: seq<Event>, request: nat, ask: Ask,
                                k: nat, seen: Option<Seen>, now: int, spend: nat)
  {
    && k < spend < |events| && (seen.Some? ==> seen.value.tick < spend)
    && events[spend] == SpendChallenge(request, now)
    && ask.challengeId != ""
    && var challenges := Found(setup, clusters, events, spend).ev.challenges;
    && ask.challengeId in challenges && !challenges[ask.challengeId].consumed
    && var c := challenges[ask.challengeId].challenge;
    && c.clusterId == ask.clusterId && c.subject == ask.subject && c.operation == ask.operation && now < c.expiresAt
  }

  /** The last step found the key active, or at least decrypting for an unwrap. */
  ghost predicate KeyRead(setup: Setup, clusters: set<string>, events: seq<Event>, request: nat, ask: Ask, spend: nat,
                          k: nat)
  {
    && spend < k < |events| && events[k] == CheckKey(request)
    && var keys := Found(setup, clusters, events, k).tables.keys;
    && ask.key in keys
    && (keys[ask.key].status.Active? || (ask.operation == C.UNWRAP && keys[ask.key].status.DecryptOnly?))
  }

  ghost predicate Justified(setup: Setup, clusters: set<string>, events: seq<Event>, d: Decision) {
    && SubjectRead(setup, clusters, events, d.request, d.ask, d.subjectTick)
    && EvidenceRead(setup, clusters, events, d.request, d.ask, d.subjectTick, d.seen)
    && ChallengeRead(setup, clusters, events, d.request, d.ask, d.subjectTick, d.seen, d.now, d.spendTick)
    && KeyRead(setup, clusters, events, d.request, d.ask, d.spendTick, d.keyTick)
  }

  /** A request under way has taken its steps so far. */
  ghost predicate UnderWay(setup: Setup, clusters: set<string>, events: seq<Event>, request: nat, r: Request) {
    match r
    case Done => true
    case Live(ask, k) => SubjectRead(setup, clusters, events, request, ask, k)
    case Evidenced(ask, k, seen) =>
      && SubjectRead(setup, clusters, events, request, ask, k)
      && EvidenceRead(setup, clusters, events, request, ask, k, seen)
    case Spent(ask, k, seen, now, spend) =>
      && SubjectRead(setup, clusters, events, request, ask, k)
      && EvidenceRead(setup, clusters, events, request, ask, k, seen)
      && ChallengeRead(setup, clusters, events, request, ask, k, seen, now, spend)
  }

  ghost predicate Accounted(setup: Setup, clusters: set<string>, events: seq<Event>, s: State) {
    && (forall r | r in s.requests :: UnderWay(setup, clusters, events, r, s.requests[r]))
    && (forall i | 0 <= i < |s.allowed| :: Justified(setup, clusters, events, s.allowed[i]))
  }

  // ---------------------------------------------------------------------
  // A longer run keeps what its beginning accounts for
  // ---------------------------------------------------------------------

  lemma FoundEarlier(setup: Setup, clusters: set<string>, events: seq<Event>, e: Event, k: nat)
    requires k <= |events|
    ensures Found(setup, clusters, events + [e], k) == Found(setup, clusters, events, k)
    ensures k < |events| ==> (events + [e])[k] == events[k]
  {
    hide Reached;
    assert (events + [e])[..k] == events[..k];
  }

  lemma SubjectReadEarlier(setup: Setup, clusters: set<string>, events: seq<Event>, e: Event, request: nat, ask: Ask,
                           k: nat)
    requires SubjectRead(setup, clusters, events, request, ask, k)
    ensures SubjectRead(setup, clusters, events + [e], request, ask, k)
  {
    hide Found, W.Verify;
    FoundEarlier(setup, clusters, events, e, k);
  }

  lemma EvidenceReadEarlier(setup: Setup, clusters: set<string>, events: seq<Event>, e: Event, request: nat, ask: Ask,
                            k: nat, seen: Option<Seen>)
    requires EvidenceRead(setup, clusters, events, request, ask, k, seen)
    ensures EvidenceRead(setup, clusters, events + [e], request, ask, k, seen)
  {
    hide Found, Text.TrimSpace;
    if seen.Some? {
      FoundEarlier(setup, clusters, events, e, seen.value.tick);
    }
  }

  lemma ChallengeReadEarlier(setup: Setup, clusters: set<string>, events: seq<Event>, e: Event, request: nat, ask: Ask,
                             k: nat, seen: Option<Seen>, now: int, spend: nat)
    requires ChallengeRead(setup, clusters, events, request, ask, k, seen, now, spend)
    ensures ChallengeRead(setup, clusters, events + [e], request, ask, k, seen, now, spend)
  {
    hide Found;
    FoundEarlier(setup, clusters, events, e, spend);
  }

  lemma KeyReadEarlier(setup: Setup, clusters: set<string>, events: seq<Event>, e: Event, request: nat, ask: Ask,
                       spend: nat, k: nat)
    requires KeyRead(setup, clusters, events, request, ask, spend, k)
    ensures KeyRead(setup, clusters, events + [e], request, ask, spend, k)
  {
    hide Found;
    FoundEarlier(setup, clusters, events, e, k);
  }

  lemma UnderWayEarlier(setup: Setup, clusters: set<string>, events: seq<Event>, e: Event, request: nat, r: Request)
    requires UnderWay(setup, clusters, events, request, r)
    ensures UnderWay(setup, clusters, events + [e], request, r)
  {
    hide SubjectRead, EvidenceRead, ChallengeRead;
    if !r.Done? {
      SubjectReadEarlier(setup, clusters, events, e, request, r.ask, r.subjectTick);
      if !r.Live? {
        EvidenceReadEarlier(setup, clusters, events, e, request, r.ask, r.subjectTick, r.seen);
        if r.Spent? {
          ChallengeReadEarlier(setup, clusters, events, e, request, r.ask, r.subjectTick, r.seen, r.now, r.spendTick);
        }
      }
    }
  }

  lemma JustifiedEarlier(setup: Setup, clusters: set<string>, events: seq<Event>, e: Event, d: Decision)
    requires Justified(setup, clusters, events, d)
    ensures Justified(setup, clusters, events + [e], d)
  {
    hide SubjectRead, EvidenceRead, ChallengeRead, KeyRead;
    SubjectReadEarlier(setup, clusters, events, e, d.request, d.ask, d.subjectTick);
    EvidenceReadEarlier(setup, clusters, events, e, d.request, d.ask, d.subjectTick, d.seen);
    ChallengeReadEarlier(setup, clusters, events, e, d.request, d.ask, d.subjectTick, d.seen, d.now, d.spendTick);
    KeyReadEarlier(setup, clusters, events, e, d.request, d.ask, d.spendTick, d.keyTick);
  }

  // ---------------------------------------------------------------------
  // The step just taken
  // ---------------------------------------------------------------------

  /** `s` is what the last step of `events + [e]` finds. */
  ghost predicate Finds(setup: Setup, clusters: set<string>, events: seq<Event>, s: State) {
    s == Reached(setup, clusters, events) && s.tick == |events|
  }

  lemma LastFinds(setup: Setup, clusters: set<string>, events: seq<Event>, e: Event, s: State)
    requires Finds(setup, clusters, events, s)
    ensures Found(setup, clusters, events + [e], s.tick) == s && (events + [e])[s.tick] == e
  {
    hide Reached;
    assert (events + [e])[..|events|] == events;
  }

  /** A step changes at most the request it belongs to, and adds at most a
      decision about it. */
  ghost predicate OnlyMoves(s: State, s': State, request: nat) {
    && (forall r | r in s'.requests && r != request :: r in s.requests && s'.requests[r] == s.requests[r])
    && (s'.allowed == s.allowed
        || (At(s, request).Spent? && At(s', request).Done? && s'.allowed == s.allowed + [DecisionOf(s, request)]))
  }

  lemma BeginAccounts(setup: Setup, clusters: set<string>, events: seq<Event>, e: Event, s: State)
    requires Finds(setup, clusters, events, s) && e.Begin? && KT.Inv(s.tables)
    requires UnderWay(setup, clusters, events, e.request, At(s, e.request))
    ensures OnlyMoves(s, After(setup, s, e), e.request) && After(setup, s, e).allowed == s.allowed
    ensures UnderWay(setup, clusters, events + [e], e.request, At(After(setup, s, e), e.request))
  {
    hide Finds, KT.Inv, Found, W.Verify, UnderWay;
    LastFinds(setup, clusters, events, e, s);
    UnderWayEarlier(setup, clusters, events, e, e.request, At(s, e.request));
    assert s.tick == |events| by { Ticks(setup, clusters, events, s); }
    var r := At(After(setup, s, e), e.request);
    if r != At(s, e.request) {
      assert SubjectRead(setup, clusters, events + [e], e.request, r.ask, s.tick);
      LiveUnderWay(setup, clusters, events + [e], e.request, r);
    }
  }

  lemma Ticks(setup: Setup, clusters: set<string>, events: seq<Event>, s: State)
    requires Finds(setup, clusters, events, s)
    ensures s.tick == |events|
  {
  }

  lemma LiveUnderWay(setup: Setup, clusters: set<string>, events: seq<Event>, request: nat, r: Request)
    requires r.Live? && SubjectRead(setup, clusters, events, request, r.ask, r.subjectTick)
    ensures UnderWay(setup, clusters, events, request, r)
  {
  }

  lemma ReadAccounts(setup: Setup, clusters: set<string>, events: seq<Event>, e: Event, s: State)
    requires Finds(setup, clusters, events, s) && e.ReadEvidence? && KT.Inv(s.tables)
    requires UnderWay(setup, clusters, events, e.request, At(s, e.request))
    ensures OnlyMoves(s, After(setup, s, e), e.request) && After(setup, s, e).allowed == s.allowed
    ensures UnderWay(setup, clusters, events + [e], e.request, At(After(setup, s, e), e.request))
  {
    hide Finds, KT.Inv, Found, Text.TrimSpace, SubjectRead, ChallengeRead;
    LastFinds(setup, clusters, events, e, s);
    UnderWayEarlier(setup, clusters, events, e, e.request, At(s, e.request));
    assert s.tick == |events| by { Ticks(setup, clusters, events, s); }
    var r := At(s, e.request);
    if r.Live? {
      assert r.subjectTick < |events| by {
        SubjectReadBefore(setup, clusters, events, e.request, r.ask, r.subjectTick);
      }
    }
  }

  lemma SubjectReadBefore(setup: Setup, clusters: set<string>, events: seq<Event>, request: nat, ask: Ask, k: nat)
    requires SubjectRead(setup, clusters, events, request, ask, k)
    ensures k < |events| && ask.operation in {C.WRAP, C.UNWRAP}
  {
  }

  lemma SpendAccounts(setup: Setup, clusters: set<string>, events: seq<Event>, e: Event, s: State)
    requires Finds(setup, clusters, events, s) && e.SpendChallenge? && KT.Inv(s.tables)
    requires UnderWay(setup, clusters, events, e.request, At(s, e.request))
    ensures OnlyMoves(s, After(setup, s, e), e.request) && After(setup, s, e).allowed == s.allowed
    ensures UnderWay(setup, clusters, events + [e], e.request, At(After(setup, s, e), e.request))
  {
    hide Finds, KT.Inv, Found, Text.TrimSpace, SubjectRead, E.After;
    LastFinds(setup, clusters, events, e, s);
    UnderWayEarlier(setup, clusters, events, e, e.request, At(s, e.request));
    assert s.tick == |events| by { Ticks(setup, clusters, events, s); }
    var r := At(s, e.request);
    if r.Evidenced? {
      assert r.subjectTick < |events| by {
        SubjectReadBefore(setup, clusters, events, e.request, r.ask, r.subjectTick);
      }
    }
  }

  lemma KeyAccounts(setup: Setup, clusters: set<string>, events: seq<Event>, e: Event, s: State)
    requires Finds(setup, clusters, events, s) && e.CheckKey? && KT.Inv(s.tables)
    requires UnderWay(setup, clusters, events, e.request, At(s, e.request))
    ensures OnlyMoves(s, After(setup, s, e), e.request)
    ensures UnderWay(setup, clusters, events + [e], e.request, At(After(setup, s, e), e.request))
    ensures After(setup, s, e).allowed != s.allowed ==>
              At(s, e.request).Spent? && Justified(setup, clusters, events + [e], DecisionOf(s, e.request))
  {
    hide Finds, KT.Inv, Found, Text.TrimSpace, SubjectRead, EvidenceRead;
    LastFinds(setup, clusters, events, e, s);
    UnderWayEarlier(setup, clusters, events, e, e.request, At(s, e.request));
    assert s.tick == |events| by { Ticks(setup, clusters, events, s); }
    var r := At(s, e.request);
    if r.Spent? {
      assert r.ask.operation in {C.WRAP, C.UNWRAP} by {
        SubjectReadBefore(setup, clusters, events, e.request, r.ask, r.subjectTick);
      }
    }
  }

  /** Key transactions and the evidence protocol leave requests as they are. */
  lemma OthersAccount(setup: Setup, s: State, e: Event)
    requires KT.Inv(s.tables) && (e.Keys? || e.Evidence?)
    ensures After(setup, s, e).requests == s.requests && After(setup, s, e).allowed == s.allowed
  {
    hide KT.Inv, E.After, K.Apply;
  }

  lemma StepAccounts(setup: Setup, clusters: set<string>, events: seq<Event>, e: Event, s: State)
    requires Finds(setup, clusters, events, s) && KT.Inv(s.tables) && Accounted(setup, clusters, events, s)
    ensures Accounted(setup, clusters, events + [e], After(setup, s, e))
  {
    hide Finds, KT.Inv, UnderWay, Justified, After;
    var s' := After(setup, s, e);
    if e.Keys? || e.Evidence? {
      OthersAccount(setup, s, e);
    } else {
      AtAccounted(setup, clusters, events, s, e.request);
      match e {
        case Begin(_, _, _, _, _) => BeginAccounts(setup, clusters, events, e, s);
        case ReadEvidence(_, _) => ReadAccounts(setup, clusters, events, e, s);
        case SpendChallenge(_, _) => SpendAccounts(setup, clusters, events, e, s);
        case CheckKey(_) => KeyAccounts(setup, clusters, events, e, s);
      }
    }
    forall r | r in s'.requests ensures UnderWay(setup, clusters, events + [e], r, s'.requests[r]) {
      if e.Keys? || e.Evidence? || r != e.request {
        UnderWayEarlier(setup, clusters, events, e, r, s.requests[r]);
      }
    }
    forall i | 0 <= i < |s'.allowed| ensures Justified(setup, clusters, events + [e], s'.allowed[i]) {
      if i < |s.allowed| {
        JustifiedEarlier(setup, clusters, events, e, s.allowed[i]);
      }
    }
  }

  lemma AtAccounted(setup: Setup, clusters: set<string>, events: seq<Event>, s: State, request: nat)
    requires Accounted(setup, clusters, events, s)
    ensures UnderWay(setup, clusters, events, request, At(s, request))
  {
    hide SubjectRead, EvidenceRead, ChallengeRead, Justified;
  }

  // ---------------------------------------------------------------------
  // Whole runs
  // ---------------------------------------------------------------------

  lemma ReachedNothing(setup: Setup, clusters: set<string>)
    ensures Finds(setup, clusters, [], Reached(setup, clusters, []))
    ensures Accounted(setup, clusters, [], Reached(setup, clusters, []))
  {
    hide KT.Inv, E.Good, UnderWay, Justified;
  }

  lemma ReachedStep(setup: Setup, clusters: set<string>, events: seq<Event>, e: Event)
    ensures Good(setup, Reached(setup, clusters, events))
    ensures Reached(setup, clusters, events + [e]) == After(setup, Reached(setup, clusters, events), e)
  {
    hide KT.Inv, E.Good, Requests, Decisions, Separate, Run, After;
    InitialGood(setup, clusters);
    var s := Start(clusters);
    RunConcat(setup, s, events, [e]);
    var mid := Run(setup, s, events);
    OneStep(setup, mid, e, []);
    NoSteps(setup, After(setup, mid, e));
    assert [e] + [] == [e];
  }

  lemma {:induction false} RunAccounts(setup: Setup, clusters: set<string>, events: seq<Event>)
    ensures Finds(setup, clusters, events, Reached(setup, clusters, events))
    ensures Accounted(setup, clusters, events, Reached(setup, clusters, events))
    decreases |events|
  {
    hide KT.Inv, E.Good, Requests, Decisions, Separate, Reached, Act, Accounted;
    if events == [] {
      ReachedNothing(setup, clusters);
    } else {
      var n := |events| - 1;
      var before, e := events[..n], events[n];
      assert events == before + [e];
      RunAccounts(setup, clusters, before);
      ReachedStep(setup, clusters, before, e);
      StepAccounts(setup, clusters, before, e, Reached(setup, clusters, before));
    }
  }

  /** In every run from an empty store, every allowed wrap or unwrap was begun by
      a verified requester whose subject was enrolled and not revoked, read
      evidence of its node that was stored and fresh, used a challenge of its own
      that was unused and unexpired, and found its key in use, in this order, each
      at the step of the run that says so; and its subject is on record still. */
  lemma AllowsAreJustified(setup: Setup, clusters: set<string>, events: seq<Event>, i: nat)
    requires i < |Reached(setup, clusters, events).allowed|
    ensures Justified(setup, clusters, events, Reached(setup, clusters, events).allowed[i])
    ensures forall s | s == Reached(setup, clusters, events) ::
              (s.allowed[i].ask.clusterId, s.allowed[i].ask.subject) in s.tables.subjects
  {
    hide Reached, Justified, UnderWay, Run, KT.Inv, E.Good, Requests, Separate;
    RunAccounts(setup, clusters, events);
    var s := Reached(setup, clusters, events);
    assert DecisionOk(setup, s, s.allowed[i]);
  }

  // ---------------------------------------------------------------------
  // The converse: what stands is allowed
  // ---------------------------------------------------------------------

  /** The requester is verified for an operation on keys, and its subject is
      enrolled and not revoked. */
  predicate MayBegin(setup: Setup, s: State, e: Event)
    requires e.Begin?
  {
    && e.operation in {C.WRAP, C.UNWRAP} && W.Verify(setup.verifier, e.presented).Ok?
    && var subject := W.Verify(setup.verifier, e.presented).value.subject;
    && subject != "" && (e.key.clusterId, subject) in s.tables.subjects
    && !s.tables.subjects[(e.key.clusterId, subject)]
  }

  function Asked(setup: Setup, e: Event): Ask
    requires e.Begin? && W.Verify(setup.verifier, e.presented).Ok?
  {
    var claims := W.Verify(setup.verifier, e.presented).value;
    Ask(e.key.clusterId, claims.subject, claims.nodeName, claims.nodeUid, e.operation, e.challengeId, e.key)
  }

  /** A request begins exactly when it may; one whose subject was never enrolled
      or is revoked changes nothing but the step count. */
  lemma BeginsIff(setup: Setup, s: State, e: Event)
    requires KT.Inv(s.tables) && e.Begin?
    ensures MayBegin(setup, s, e) ==>
              After(setup, s, e)
              == s.(requests := s.requests[e.request := Live(Asked(setup, e), s.tick)], tick := s.tick + 1)
    ensures !MayBegin(setup, s, e) ==> After(setup, s, e) == s.(tick := s.tick + 1)
  {
    hide KT.Inv, W.Verify;
  }

  /** What the rest of a request will find, told by the store as it is. */
  predicate Stands(setup: Setup, s: State, ask: Ask, clock: int, now: int) {
    && (setup.checksEvidence && ask.nodeName != "" ==>
          var node := S.Node(Text.TrimSpace(ask.clusterId), Text.TrimSpace(ask.nodeName));
          && node in s.ev.st.evidence && clock < s.ev.st.evidence[node].expiresAt
          && (ask.nodeUid == "" || s.ev.st.evidence[node].uid == "" || ask.nodeUid == s.ev.st.evidence[node].uid))
    && ask.challengeId != "" && ask.challengeId in s.ev.challenges && !s.ev.challenges[ask.challengeId].consumed
    && var c := s.ev.challenges[ask.challengeId].challenge;
    && c.clusterId == ask.clusterId && c.subject == ask.subject && c.operation == ask.operation && now < c.expiresAt
    && ask.key in s.tables.keys
    && var status := s.tables.keys[ask.key].status;
    && (status.Active? || (ask.operation == C.UNWRAP && status.DecryptOnly?))
  }

  lemma StandsInOrder(setup: Setup, s: State, ask: Ask, k: nat, clock: int, now: int)
    requires ask.operation in {C.WRAP, C.UNWRAP}
    ensures InOrder(setup, s, Live(ask, k), clock, now) <==> Stands(setup, s, ask, clock, now)
  {
    hide Text.TrimSpace;
  }

  function Whole(e: Event, clock: int, now: int): seq<Event>
    requires e.Begin?
  {
    [e, ReadEvidence(e.request, clock), SpendChallenge(e.request, now), CheckKey(e.request)]
  }

  /** A whole request that nothing disturbs is allowed if and only if it may begin
      and all it looks at stands; either way the tables and the evidence are as
      before, and a decision about it alone is added or none is. */
  lemma AllowedIff(setup: Setup, s: State, e: Event, clock: int, now: int)
    requires Good(setup, s) && e.Begin? && At(s, e.request).Done?
    ensures forall s' | s' == Run(setup, s, Whole(e, clock, now)) ::
              && s'.tables == s.tables && s'.ev.st == s.ev.st
              && (if MayBegin(setup, s, e) && Stands(setup, s, Asked(setup, e), clock, now)
                  then
                    && |s'.allowed| == |s.allowed| + 1 && s'.allowed[..|s.allowed|] == s.allowed
                    && s'.allowed[|s.allowed|].ask == Asked(setup, e)
                  else s'.allowed == s.allowed)
  {
    hide KT.Inv, E.Good, Requests, Decisions, Separate, After, Run, W.Verify, InOrder, Stands, Remaining;
    var rest := [ReadEvidence(e.request, clock), SpendChallenge(e.request, now), CheckKey(e.request)];
    assert Whole(e, clock, now) == [e] + rest;
    OneStep(setup, s, e, rest);
    BeginsIff(setup, s, e);
    var s1 := After(setup, s, e);
    if MayBegin(setup, s, e) {
      var ask := Asked(setup, e);
      StandsInOrder(setup, s1, ask, s.tick, clock, now);
      StandsAlike(setup, s, s1, ask, clock, now);
      LiveRemaining(ask, s.tick, e.request, clock, now);
      UndisturbedRequest(setup, s1, e.request, clock, now);
    } else {
      IdleRequest(setup, s1, e.request, clock, now);
    }
  }

  lemma StandsAlike(setup: Setup, s: State, s': State, ask: Ask, clock: int, now: int)
    requires s'.tables == s.tables && s'.ev == s.ev
    ensures Stands(setup, s', ask, clock, now) <==> Stands(setup, s, ask, clock, now)
  {
    hide Text.TrimSpace;
  }

  lemma LiveRemaining(ask: Ask, k: nat, request: nat, clock: int, now: int)
    ensures Remaining(Live(ask, k), request, clock, now)
            == [ReadEvidence(request, clock), SpendChallenge(request, now), CheckKey(request)]
  {
  }

  lemma IdleRequest(setup: Setup, s: State, request: nat, clock: int, now: int)
    requires Good(setup, s) && At(s, request).Done?
    ensures forall s' | s' == Run(setup, s, [ReadEvidence(request, clock), SpendChallenge(request, now),
                                             CheckKey(request)]) ::
              s'.tables == s.tables && s'.ev == s.ev && s'.allowed == s.allowed
  {
    hide KT.Inv, E.Good, Requests, Decisions, Separate, Run, After;
    var a, b, c := ReadEvidence(request, clock), SpendChallenge(request, now), CheckKey(request);
    assert [a, b, c] == [a] + [b, c] && [b, c] == [b] + [c] && [c] == [c] + [];
    OneStep(setup, s, a, [b, c]);
    IdleStep(setup, s, a);
    var s1 := After(setup, s, a);
    OneStep(setup, s1, b, [c]);
    IdleStep(setup, s1, b);
    var s2 := After(setup, s1, b);
    OneStep(setup, s2, c, []);
    IdleStep(setup, s2, c);
    NoSteps(setup, After(setup, s2, c));
  }

  lemma IdleStep(setup: Setup, s: State, e: Event)
    requires KT.Inv(s.tables) && (e.ReadEvidence? || e.SpendChallenge? || e.CheckKey?) && At(s, e.request).Done?
    ensures After(setup, s, e) == s.(tick := s.tick + 1)
  {
    hide KT.Inv;
  }
}
