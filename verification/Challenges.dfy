/** One-time challenges: the in-memory store and the SQL table, and that both
    answer every sequence of calls alike. Times are nanoseconds. */
module Challenges {
  import opened KeyRefs
  import opened Identifiers
  import opened Results
  import Hex
  import Text

  type Bytes = Hex.Bytes

  datatype Error = Invalid | Exists | NotFound | Mismatch | Replayed | Expired

  /** An operation is an open enumeration: a number, known or not. */
  const UNSPECIFIED := 0
  const WRAP := 1
  const UNWRAP := 2
  const ENROLL := 3
  const ROTATE := 4
  const RECOVER := 5

  datatype Challenge = Challenge(
    id: string, nonce: Bytes, clusterId: string, subject: string, operation: int, expiresAt: int, createdAt: int)

  datatype Issued = Issued(challenge: Challenge, consumed: bool)

  datatype Row = Row(
    nonce: Bytes, clusterId: string, subject: string, operation: string,
    expiresAt: int, createdAt: int, consumedAt: Option<int>)

  /** What a caller presents. */
  datatype Claim = Claim(id: string, clusterId: string, subject: string, operation: int, now: int)

  // ---------------------------------------------------------------------
  // Operation names
  // ---------------------------------------------------------------------

  function OperationName(op: int): string {
    if op == UNSPECIFIED then "OPERATION_UNSPECIFIED"
    else if op == WRAP then "OPERATION_WRAP"
    else if op == UNWRAP then "OPERATION_UNWRAP"
    else if op == ENROLL then "OPERATION_ENROLL"
    else if op == ROTATE then "OPERATION_ROTATE"
    else if op == RECOVER then "OPERATION_RECOVER"
    else if op < 0 then "-" + Decimal(-op)
    else Decimal(op)
  }

  predicate Known(op: int) {
    0 <= op <= RECOVER
  }

  lemma NameShape(op: int)
    ensures Known(op) <==> OperationName(op) != "" && !IsDigit(OperationName(op)[|OperationName(op)| - 1])
    ensures op > RECOVER ==> OperationName(op) == Decimal(op) && AllDigits(Decimal(op))
    ensures op < 0 ==> OperationName(op) == "-" + Decimal(-op)
  {
    if !Known(op) {
      DecimalValue(if op < 0 then -op else op);
    }
  }

  lemma MinusIsNoDigit(s: string)
    ensures !AllDigits("-" + s) && ("-" + s)[1..] == s
  {
    assert ("-" + s)[0] == '-';
  }

  /** Comparing stored names compares the operations. */
  lemma OperationNameInjective(a: int, b: int)
    requires OperationName(a) == OperationName(b)
    ensures a == b
  {
    hide OperationName, Decimal, Value, AllDigits;
    NameShape(a);
    NameShape(b);
    if Known(a) {
      KnownNames(a, b);
    } else {
      var m, n := if a < 0 then -a else a, if b < 0 then -b else b;
      DecimalValue(m);
      DecimalValue(n);
      MinusIsNoDigit(Decimal(m));
      MinusIsNoDigit(Decimal(n));
    }
  }

  lemma KnownNames(a: int, b: int)
    requires Known(a) && Known(b) && OperationName(a) == OperationName(b)
    ensures a == b
  {
    var s := OperationName(a);
    assert |OperationName(UNSPECIFIED)| == 21 && |OperationName(WRAP)| == 14 && |OperationName(RECOVER)| == 17;
    assert |OperationName(UNWRAP)| == 16 && |OperationName(ENROLL)| == 16 && |OperationName(ROTATE)| == 16;
    assert OperationName(UNWRAP)[15] == 'P' && OperationName(ENROLL)[15] == 'L' && OperationName(ROTATE)[15] == 'E';
  }

  // ---------------------------------------------------------------------
  // The two stores
  // ---------------------------------------------------------------------

  predicate Fits(c: Challenge, claim: Claim) {
    c.clusterId == claim.clusterId && c.subject == claim.subject && c.operation == claim.operation
  }

  /** The memory store's verdict on a claim. */
  function Judge(m: map<string, Issued>, claim: Claim): Result<Bytes, Error> {
    if claim.id !in m then Err(NotFound)
    else
      var issued := m[claim.id];
      if !Fits(issued.challenge, claim) then Err(Mismatch)
      else if issued.consumed then Err(Replayed)
      else if claim.now >= issued.challenge.expiresAt then Err(Expired)
      else Ok(issued.challenge.nonce)
  }

  function Consumed(m: map<string, Issued>, claim: Claim): map<string, Issued> {
    if Judge(m, claim).Ok? then m[claim.id := m[claim.id].(consumed := true)] else m
  }

  predicate Accepts(m: map<string, Issued>, c: Challenge) {
    Text.TrimSpace(c.id) != "" && c.nonce != [] && c.id !in m
  }

  class MemoryChallengeStore {
    var challenges: map<string, Issued>

    constructor ()
      ensures challenges == map[]
    {
      challenges := map[];
    }

    method CreateChallenge(c: Challenge) returns (r: Result<(), Error>)
      modifies this
      ensures r.Ok? <==> Accepts(old(challenges), c)
      ensures r.Ok? <==> Text.TrimSpace(c.id) != "" && |c.nonce| > 0 && c.id !in old(challenges)
      ensures challenges == if r.Ok? then old(challenges)[c.id := Issued(c, false)] else old(challenges)
    {
      if Text.TrimSpace(c.id) == "" || |c.nonce| == 0 {
        return Err(Invalid);
      }
      if c.id in challenges {
        return Err(Exists);
      }
      challenges := challenges[c.id := Issued(c, false)];
      r := Ok(());
    }

    method ChallengeNonce(claim: Claim) returns (r: Result<Bytes, Error>)
      ensures r == Judge(challenges, claim)
      ensures r.Ok? <==>
              && claim.id in challenges && Fits(challenges[claim.id].challenge, claim)
              && !challenges[claim.id].consumed && claim.now < challenges[claim.id].challenge.expiresAt
      ensures r.Ok? ==> r.value == challenges[claim.id].challenge.nonce
    {
      var valid := ValidChallenge(claim);
      r := valid.Then((issued: Issued) => Ok(issued.challenge.nonce));
    }

    /** On success this claim was good, and no claim on the challenge ever is
        again; nothing else changes either way. */
    method ConsumeChallenge(claim: Claim) returns (r: Result<(), Error>)
      modifies this
      ensures challenges == Consumed(old(challenges), claim)
      ensures r == Judge(old(challenges), claim).Then(_ => Ok(()))
      ensures r.Ok? ==> forall later: Claim | later.id == claim.id :: Judge(challenges, later).Err?
      ensures forall other: Claim | other.id != claim.id || r.Err? ::
              Judge(challenges, other) == Judge(old(challenges), other)
    {
      var valid := ValidChallenge(claim);
      if valid.Err? {
        return Err(valid.error);
      }
      var stored := valid.value.(consumed := true);
      challenges := challenges[claim.id := stored];
      r := Ok(());
    }

    /** The stored challenge if it is there, fits the claim, is unused and has not
        expired; otherwise the first of these that fails. */
    method ValidChallenge(claim: Claim) returns (r: Result<Issued, Error>)
      ensures r == Err(NotFound) <==> claim.id !in challenges
      ensures r == Err(Mismatch) <==> claim.id in challenges && !Fits(challenges[claim.id].challenge, claim)
      ensures r == Err(Replayed) <==>
              claim.id in challenges && Fits(challenges[claim.id].challenge, claim) && challenges[claim.id].consumed
      ensures r == Err(Expired) <==>
              && claim.id in challenges && Fits(challenges[claim.id].challenge, claim) && !challenges[claim.id].consumed
              && challenges[claim.id].challenge.expiresAt <= claim.now
      ensures r.Ok? ==> claim.id in challenges && r.value == challenges[claim.id]
      ensures r.Err? ==> r.error in {NotFound, Mismatch, Replayed, Expired}
    {
      if claim.id !in challenges {
        return Err(NotFound);
      }
      var stored := challenges[claim.id];
      var c := stored.challenge;
      if c.clusterId != claim.clusterId || c.subject != claim.subject || c.operation != claim.operation {
        return Err(Mismatch);
      }
      if stored.consumed {
        return Err(Replayed);
      }
      if !(claim.now < c.expiresAt) {
        return Err(Expired);
      }
      r := Ok(stored);
    }
  }

  /** The SQL table's verdict: the operation is compared by name, and a
      challenge is spent once it has a time of consumption. */
  function RowJudge(rows: map<string, Row>, claim: Claim): Result<Bytes, Error> {
    if claim.id !in rows then Err(NotFound)
    else
      var row := rows[claim.id];
      if row.clusterId != claim.clusterId || row.subject != claim.subject
         || row.operation != OperationName(claim.operation) then Err(Mismatch)
      else if row.consumedAt.Some? then Err(Replayed)
      else if claim.now >= row.expiresAt then Err(Expired)
      else Ok(row.nonce)
  }

  function RowConsumed(rows: map<string, Row>, claim: Claim): map<string, Row> {
    if RowJudge(rows, claim).Ok? then rows[claim.id := rows[claim.id].(consumedAt := Some(claim.now))] else rows
  }

  function RowOf(c: Challenge): Row {
    Row(c.nonce, c.clusterId, c.subject, OperationName(c.operation), c.expiresAt, c.createdAt, None)
  }

  /** Primary key, unique nonce, known cluster. */
  predicate RowAccepts(rows: map<string, Row>, clusters: set<string>, c: Challenge) {
    c.id !in rows && c.clusterId in clusters && forall id | id in rows :: rows[id].nonce != c.nonce
  }

  /** The table stands for a memory store, `issued`, and answers as it does. */
  class SqliteChallenges {
    var rows: map<string, Row>
    const clusters: set<string>
    ghost var issued: map<string, Issued>

    ghost predicate Valid()
      reads this
    {
      Agree(issued, rows)
    }

    constructor (clusters: set<string>)
      ensures Valid() && issued == map[] && this.clusters == clusters
    {
      rows, issued := map[], map[];
      this.clusters := clusters;
    }

    method CreateChallenge(c: Challenge) returns (r: Result<(), Error>)
      requires Valid()
      modifies this
      ensures Valid()
      ensures r.Ok? <==>
              && c.id !in old(rows) && c.clusterId in clusters
              && (forall id | id in old(rows) :: old(rows)[id].nonce != c.nonce)
      ensures issued == if r.Ok? then old(issued)[c.id := Issued(c, false)] else old(issued)
    {
      hide OperationName;
      if c.id in rows || c.clusterId !in clusters || exists id | id in rows :: rows[id].nonce == c.nonce {
        return Err(Exists);
      }
      rows := rows[c.id := RowOf(c)];
      issued := issued[c.id := Issued(c, false)];
      r := Ok(());
    }

    /** The verdict of the memory store on the same challenges. */
    method ChallengeNonce(claim: Claim) returns (r: Result<Bytes, Error>)
      requires Valid()
      ensures r == Judge(issued, claim)
    {
      hide OperationName, Agree;
      SameVerdict(issued, rows, claim);
      if claim.id !in rows {
        return Err(NotFound);
      }
      var row := rows[claim.id];
      if row.clusterId != claim.clusterId || row.subject != claim.subject
         || row.operation != OperationName(claim.operation)
      {
        return Err(Mismatch);
      }
      if row.consumedAt.Some? {
        return Err(Replayed);
      }
      if !(claim.now < row.expiresAt) {
        return Err(Expired);
      }
      r := Ok(row.nonce);
    }

    /** The verdict and the effect of the memory store on the same challenges;
        on success no claim on the challenge is ever good again. */
    method ConsumeChallenge(claim: Claim) returns (r: Result<(), Error>)
      requires Valid()
      modifies this
      ensures Valid() && issued == Consumed(old(issued), claim)
      ensures r == Judge(old(issued), claim).Then(_ => Ok(()))
      ensures r.Ok? ==> forall later: Claim | later.id == claim.id :: Judge(issued, later).Err?
      ensures r.Ok? ==> claim.id in rows && rows[claim.id].consumedAt == Some(claim.now)
    {
      hide OperationName, Agree;
      SameVerdict(issued, rows, claim);
      issued := Consumed(issued, claim);
      if claim.id !in rows {
        return Err(NotFound);
      }
      var row := rows[claim.id];
      if row.clusterId != claim.clusterId || row.subject != claim.subject
         || row.operation != OperationName(claim.operation)
      {
        return Err(Mismatch);
      }
      if row.consumedAt.Some? {
        return Err(Replayed);
      }
      if !(claim.now < row.expiresAt) {
        return Err(Expired);
      }
      rows := rows[claim.id := row.(consumedAt := Some(claim.now))];
      r := Ok(());
    }
  }

  // ---------------------------------------------------------------------
  // Both stores answer alike
  // ---------------------------------------------------------------------

  predicate Matches(issued: Issued, row: Row) {
    && row == RowOf(issued.challenge).(consumedAt := row.consumedAt)
    && (row.consumedAt.Some? <==> issued.consumed)
  }

  ghost predicate Agree(m: map<string, Issued>, rows: map<string, Row>) {
    m.Keys == rows.Keys && forall id | id in m :: Matches(m[id], rows[id])
  }

  lemma SameVerdict(m: map<string, Issued>, rows: map<string, Row>, claim: Claim)
    requires Agree(m, rows)
    ensures Judge(m, claim) == RowJudge(rows, claim)
    ensures Agree(Consumed(m, claim), RowConsumed(rows, claim))
  {
    hide OperationName;
    if claim.id in m {
      assert Matches(m[claim.id], rows[claim.id]);
      var op := m[claim.id].challenge.operation;
      if OperationName(op) == OperationName(claim.operation) {
        OperationNameInjective(op, claim.operation);
      }
    }
  }

  datatype Call = Create(challenge: Challenge) | Read(claim: Claim) | Consume(claim: Claim)

  function MemoryRun(m: map<string, Issued>, calls: seq<Call>): seq<Result<Bytes, Error>>
    decreases |calls|
  {
    if calls == [] then []
    else
      match calls[0]
      case Create(c) => [Ok([])] + MemoryRun(m[c.id := Issued(c, false)], calls[1..])
      case Read(claim) => [Judge(m, claim)] + MemoryRun(m, calls[1..])
      case Consume(claim) => [Judge(m, claim).Then(_ => Ok([]))] + MemoryRun(Consumed(m, claim), calls[1..])
  }

  function RowRun(rows: map<string, Row>, calls: seq<Call>): seq<Result<Bytes, Error>>
    decreases |calls|
  {
    if calls == [] then []
    else
      match calls[0]
      case Create(c) => [Ok([])] + RowRun(rows[c.id := RowOf(c)], calls[1..])
      case Read(claim) => [RowJudge(rows, claim)] + RowRun(rows, calls[1..])
      case Consume(claim) => [RowJudge(rows, claim).Then(_ => Ok([]))] + RowRun(RowConsumed(rows, claim), calls[1..])
  }

  /** Every creation in the sequence succeeds in both stores. */
  predicate BothCreate(m: map<string, Issued>, rows: map<string, Row>, clusters: set<string>, calls: seq<Call>)
    decreases |calls|
  {
    calls == [] ||
    match calls[0]
    case Create(c) =>
      Accepts(m, c) && RowAccepts(rows, clusters, c)
      && BothCreate(m[c.id := Issued(c, false)], rows[c.id := RowOf(c)], clusters, calls[1..])
    case Read(_) => BothCreate(m, rows, clusters, calls[1..])
    case Consume(claim) => BothCreate(Consumed(m, claim), RowConsumed(rows, claim), clusters, calls[1..])
  }

  /** From stores that agree, every sequence of calls over the same created
      challenges draws the same answers, errors included. */
  lemma {:induction false} StoresAnswerAlike(m: map<string, Issued>, rows: map<string, Row>, clusters: set<string>,
                                             calls: seq<Call>)
    requires Agree(m, rows) && BothCreate(m, rows, clusters, calls)
    ensures MemoryRun(m, calls) == RowRun(rows, calls)
    decreases |calls|
  {
    hide Judge, RowJudge, Consumed, RowConsumed, OperationName, Accepts, RowAccepts;
    if calls != [] {
      match calls[0]
      case Create(c) =>
        StoresAnswerAlike(m[c.id := Issued(c, false)], rows[c.id := RowOf(c)], clusters, calls[1..]);
      case Read(claim) =>
        SameVerdict(m, rows, claim);
        StoresAnswerAlike(m, rows, clusters, calls[1..]);
      case Consume(claim) =>
        SameVerdict(m, rows, claim);
        StoresAnswerAlike(Consumed(m, claim), RowConsumed(rows, claim), clusters, calls[1..]);
    }
  }

  /** A claim fits a challenge of its own cluster, subject and operation. */
  lemma FitsIs(c: Challenge, claim: Claim)
    ensures Fits(c, claim)
            <==> (c.clusterId, c.subject, c.operation) == (claim.clusterId, claim.subject, claim.operation)
  {
  }

  /** The names under which operations are stored. */
  lemma OperationNames(op: int)
    ensures OperationName(0) == "OPERATION_UNSPECIFIED" && OperationName(1) == "OPERATION_WRAP"
    ensures OperationName(2) == "OPERATION_UNWRAP" && OperationName(3) == "OPERATION_ENROLL"
    ensures OperationName(4) == "OPERATION_ROTATE" && OperationName(5) == "OPERATION_RECOVER"
    ensures op > 5 ==> OperationName(op) == Decimal(op)
    ensures op < 0 ==> OperationName(op) == "-" + Decimal(-op)
  {
  }
}
