/** Offline recovery: splitting a wrapping key into shares and rebuilding it.

    Share texts are modelled as the envelopes they encode, with explicit cases
    for texts that do not decode. Randomness is the byte stream the reader
    delivers; the checksum digest is an arbitrary function of the secret. */
module Recovery {
  import opened Gf256
  import opened Interpolation
  import opened Identifiers
  import opened Results
  import opened Sequences
  import opened Times

  const SCHEMA_VERSION := 1
  const KDF_NONE := "none"
  const ALGORITHM_AES_256_GCM := "AES-256-GCM"
  const RECOVER_ENROLL := "recover-enroll"
  const CHECKSUM_PREFIX := "sha256:"

  datatype Error = InvalidPackage | InvalidShare | ThresholdNotMet | RandomExhausted

  datatype CreationTime = Unparsable | At(nanoseconds: int)

  datatype Metadata = Metadata(
    schemaVersion: nat,
    packageId: string,
    clusterId: string,
    keyId: string,
    createdAt: CreationTime,
    threshold: int,
    shares: int,
    kdf: string,
    wrappingAlgorithm: string,
    secretChecksum: string,
    allowedOperations: seq<string>)

  datatype SharePoint = SharePoint(index: Element, value: seq<Element>)

  datatype ShareValue = Undecodable | Bytes(bytes: seq<Element>)

  /** A printable share: its envelope, or a text that is not one. */
  datatype Share =
    | Garbled
    | Envelope(schemaVersion: nat, packageId: string, index: int, value: ShareValue)

  datatype Package = Package(metadata: Metadata, shares: seq<Share>)

  predicate ValidCounts(threshold: int, shares: int) {
    0 < threshold <= shares <= 255
  }

  predicate ValidMetadata(m: Metadata) {
    && m.schemaVersion == SCHEMA_VERSION
    && ValidIdentifier(m.packageId) && ValidIdentifier(m.clusterId) && ValidIdentifier(m.keyId)
    && ValidCounts(m.threshold, m.shares)
    && m.kdf == KDF_NONE
    && m.wrappingAlgorithm == ALGORITHM_AES_256_GCM
    && CHECKSUM_PREFIX <= m.secretChecksum
    && m.createdAt.At?
    && RECOVER_ENROLL in m.allowedOperations
  }

  function Checksum(digest: seq<Element> -> string, secret: seq<Element>): string {
    CHECKSUM_PREFIX + digest(secret)
  }

  // ---------------------------------------------------------------------
  // Splitting
  // ---------------------------------------------------------------------

  datatype Drawn = Drawn(rows: seq<seq<Element>>, rest: seq<Element>) | Exhausted

  /** The coefficient rows, one per secret byte: the byte itself, then
      `threshold - 1` bytes of the stream. */
  function Draw(secret: seq<Element>, threshold: nat, random: seq<Element>): Drawn
    requires threshold >= 1
  {
    if secret == [] then Drawn([], random)
    else if |random| < threshold - 1 then Exhausted
    else
      match Draw(secret[1..], threshold, random[threshold - 1..])
      case Exhausted => Exhausted
      case Drawn(rows, rest) => Drawn([[secret[0]] + random[..threshold - 1]] + rows, rest)
  }

  lemma {:induction false} DrawShape(secret: seq<Element>, threshold: nat, random: seq<Element>)
    requires threshold >= 1 && Draw(secret, threshold, random).Drawn?
    ensures var rows := Draw(secret, threshold, random).rows;
            |rows| == |secret| && forall o | 0 <= o < |rows| :: |rows[o]| == threshold && rows[o][0] == secret[o]
  {
    if secret != [] {
      DrawShape(secret[1..], threshold, random[threshold - 1..]);
    }
  }

  /** What the holder of index x is given. */
  function ValueAt(rows: seq<seq<Element>>, x: Element): seq<Element> {
    seq(|rows|, o requires 0 <= o < |rows| => Eval(rows[o], x))
  }

  function PointAt(rows: seq<seq<Element>>, i: nat): SharePoint
    requires i < 255
  {
    var x := (i + 1) as Element;
    SharePoint(x, ValueAt(rows, x))
  }

  function Points(rows: seq<seq<Element>>, shares: nat): seq<SharePoint>
    requires shares <= 255
  {
    seq(shares, i requires 0 <= i < shares => PointAt(rows, i))
  }

  function Split(secret: seq<Element>, threshold: nat, shares: nat,
                 random: seq<Element>): Result<seq<SharePoint>, Error>
    requires threshold >= 1 && shares <= 255
  {
    match Draw(secret, threshold, random)
    case Exhausted => Err(RandomExhausted)
    case Drawn(rows, _) => Ok(Points(rows, shares))
  }

  ghost predicate ColumnFilled(values: array2<Element>, o: nat, row: seq<Element>)
    reads values
    requires o < values.Length1 && values.Length0 <= 255
  {
    forall i | 0 <= i < values.Length0 :: values[i, o] == Eval(row, (i + 1) as Element)
  }

  method SplitSecret(secret: seq<Element>, threshold: nat, shares: nat, random: seq<Element>)
    returns (r: Result<seq<SharePoint>, Error>)
    requires threshold >= 1 && shares <= 255
    ensures r == Split(secret, threshold, shares, random)
  {
    hide Eval;
    var values := new Element[shares, |secret|];
    var rest := random;
    ghost var rows: seq<seq<Element>> := [];
    for offset := 0 to |secret|
      invariant |rows| == offset
      invariant Draw(secret, threshold, random) == Prepend(rows, Draw(secret[offset..], threshold, rest))
      invariant forall o | 0 <= o < offset :: ColumnFilled(values, o, rows[o])
    {
      if |rest| < threshold - 1 {
        return Err(RandomExhausted);
      }
      var coefficients := [secret[offset]] + rest[..threshold - 1];
      assert secret[offset..][1..] == secret[offset + 1..];
      FillColumn(values, offset, coefficients);
      rows := rows + [coefficients];
      rest := rest[threshold - 1..];
    }
    assert secret[|secret|..] == [] && rows + [] == rows;
    var points := ReadPoints(values, rows);
    return Ok(points);
  }

  method FillColumn(values: array2<Element>, offset: nat, coefficients: seq<Element>)
    requires offset < values.Length1 && values.Length0 <= 255
    modifies values
    ensures ColumnFilled(values, offset, coefficients)
    ensures forall i, o | 0 <= i < values.Length0 && 0 <= o < values.Length1 && o != offset ::
              values[i, o] == old(values[i, o])
  {
    hide Eval;
    for i := 0 to values.Length0
      invariant forall k | 0 <= k < i :: values[k, offset] == Eval(coefficients, (k + 1) as Element)
      invariant forall k, o | 0 <= k < values.Length0 && 0 <= o < values.Length1 && o != offset ::
                  values[k, o] == old(values[k, o])
    {
      var value := EvalPolynomial(coefficients, (i + 1) as Element);
      values[i, offset] := value;
    }
  }

  method ReadPoints(values: array2<Element>, ghost rows: seq<seq<Element>>) returns (points: seq<SharePoint>)
    requires values.Length0 <= 255 && values.Length1 == |rows|
    requires forall o | 0 <= o < |rows| :: ColumnFilled(values, o, rows[o])
    ensures points == Points(rows, values.Length0)
  {
    hide Eval;
    points := [];
    for i := 0 to values.Length0
      invariant |points| == i
      invariant forall k | 0 <= k < i :: points[k] == PointAt(rows, k)
    {
      var value := seq(values.Length1, o requires 0 <= o < values.Length1 reads values => values[i, o]);
      assert value == ValueAt(rows, (i + 1) as Element);
      points := points + [SharePoint((i + 1) as Element, value)];
    }
  }

  function Prepend(rows: seq<seq<Element>>, d: Drawn): Drawn {
    match d
    case Exhausted => Exhausted
    case Drawn(more, rest) => Drawn(rows + more, rest)
  }

  // ---------------------------------------------------------------------
  // Combining
  // ---------------------------------------------------------------------

  function Indexes(points: seq<SharePoint>): seq<Element> {
    seq(|points|, i requires 0 <= i < |points| => points[i].index)
  }

  predicate Combinable(points: seq<SharePoint>) {
    && points != []
    && (forall i | 0 <= i < |points| :: points[i].index != 0)
    && Distinct(Indexes(points))
    && (forall i | 0 <= i < |points| :: |points[i].value| == |points[0].value|)
  }

  function Column(points: seq<SharePoint>, offset: nat): seq<Element>
    requires forall i | 0 <= i < |points| :: offset < |points[i].value|
  {
    seq(|points|, i requires 0 <= i < |points| => points[i].value[offset])
  }

  function CombinedByte(points: seq<SharePoint>, offset: nat): Element
    requires forall i | 0 <= i < |points| :: offset < |points[i].value|
  {
    Combine(Indexes(points), Indexes(points), Column(points, offset))
  }

  function CombinedSecret(points: seq<SharePoint>): seq<Element>
    requires Combinable(points)
  {
    seq(|points[0].value|, o requires 0 <= o < |points[0].value| => CombinedByte(points, o))
  }

  function CombineResult(points: seq<SharePoint>): Result<seq<Element>, Error> {
    if points == [] then Err(ThresholdNotMet)
    else if !Combinable(points) then Err(InvalidShare)
    else Ok(CombinedSecret(points))
  }

  method CombineShares(points: seq<SharePoint>) returns (r: Result<seq<Element>, Error>)
    ensures r == CombineResult(points)
  {
    hide Combine, Basis;
    if points == [] {
      return Err(ThresholdNotMet);
    }
    var valid := CheckPoints(points);
    if !valid {
      return Err(InvalidShare);
    }
    var secretLen := |points[0].value|;
    var secret := new Element[secretLen];
    for offset := 0 to secretLen
      invariant forall o | 0 <= o < offset :: secret[o] == CombinedByte(points, o)
    {
      var value := CombineColumn(points, offset);
      secret[offset] := value;
    }
    assert secret[..] == CombinedSecret(points);
    return Ok(secret[..]);
  }

  method CheckPoints(points: seq<SharePoint>) returns (valid: bool)
    requires points != []
    ensures valid <==> Combinable(points)
  {
    var seen: set<Element> := {};
    for i := 0 to |points|
      invariant seen == set k | 0 <= k < i :: points[k].index
      invariant forall k | 0 <= k < i :: points[k].index != 0 && |points[k].value| == |points[0].value|
      invariant forall j, k | 0 <= j < k < i :: points[j].index != points[k].index
    {
      var point := points[i];
      if point.index == 0 {
        return false;
      }
      if point.index in seen {
        ghost var k :| 0 <= k < i && points[k].index == point.index;
        assert Indexes(points)[k] == Indexes(points)[i];
        return false;
      }
      seen := seen + {point.index};
      if |point.value| != |points[0].value| {
        return false;
      }
    }
    return true;
  }

  /** The two inner loops: one byte of the secret. */
  method CombineColumn(points: seq<SharePoint>, offset: nat) returns (value: Element)
    requires Combinable(points) && offset < |points[0].value|
    ensures value == CombinedByte(points, offset)
  {
    hide Mul, Basis;
    ghost var xs, vs := Indexes(points), Column(points, offset);
    value := 0;
    for i := 0 to |points|
      invariant value == Combine(xs, xs[..i], vs[..i])
    {
      var basis := BasisValue(points, i);
      var term := GfMul(points[i].value[offset], basis);
      value := value ^ term;
      assert xs[..i + 1][..i] == xs[..i] && vs[..i + 1][..i] == vs[..i];
    }
    assert xs[..|points|] == xs && vs[..|points|] == vs;
  }

  method BasisValue(points: seq<SharePoint>, i: nat) returns (basis: Element)
    requires Combinable(points) && i < |points|
    ensures basis == Basis(Indexes(points), points[i].index)
  {
    hide Mul, Div, Basis, Weight, Combinable, Indexes;
    var point := points[i];
    basis := 1;
    BasisEmpty(points, point.index);
    for j := 0 to |points|
      invariant basis == Basis(Indexes(points[..j]), point.index)
    {
      BasisStep(points, j, point.index);
      var other := points[j];
      WeightOf(point.index, other.index);
      if i == j {
        MulOne(basis);
      } else {
        IndexesDiffer(points, i, j);
        var divisor := GfDiv(other.index, point.index ^ other.index);
        basis := GfMul(basis, divisor.value);
      }
    }
    assert points[..|points|] == points;
  }

  lemma BasisEmpty(points: seq<SharePoint>, x: Element)
    ensures Basis(Indexes(points[..0]), x) == 1
  {
    assert Indexes(points[..0]) == [];
  }

  lemma BasisStep(points: seq<SharePoint>, j: nat, x: Element)
    requires j < |points|
    ensures Basis(Indexes(points[..j + 1]), x) == Mul(Basis(Indexes(points[..j]), x), Weight(x, points[j].index))
  {
    hide Mul, Weight;
    assert Indexes(points[..j + 1])[..j] == Indexes(points[..j]);
  }

  lemma IndexesDiffer(points: seq<SharePoint>, i: nat, j: nat)
    requires Combinable(points) && i < |points| && j < |points| && i != j
    ensures points[i].index != points[j].index
  {
    var xs := Indexes(points);
    assert xs[i] == points[i].index && xs[j] == points[j].index;
  }

  lemma WeightOf(x: Element, y: Element)
    ensures x == y ==> Weight(x, y) == 1
    ensures x != y ==> x ^ y != 0 && Weight(x, y) == Div(y, x ^ y)
  {
    hide Div, Mul;
    AddCancels(x, y);
  }

  // ---------------------------------------------------------------------
  // Packages
  // ---------------------------------------------------------------------

  datatype CreateRequest = CreateRequest(
    packageId: string, clusterId: string, keyId: string,
    secret: seq<Element>, threshold: int, shares: int, now: int)

  predicate ValidRequest(q: CreateRequest) {
    && ValidIdentifier(q.packageId) && ValidIdentifier(q.clusterId) && ValidIdentifier(q.keyId)
    && q.secret != []
    && ValidCounts(q.threshold, q.shares)
  }

  /** The creation time as it reads back. */
  function Written(now: int): CreationTime {
    if ReadsBack(now) then At(now) else Unparsable
  }

  function PackageMetadata(digest: seq<Element> -> string, q: CreateRequest): Metadata {
    Metadata(SCHEMA_VERSION, q.packageId, q.clusterId, q.keyId, Written(q.now), q.threshold, q.shares,
             KDF_NONE, ALGORITHM_AES_256_GCM, Checksum(digest, q.secret), [RECOVER_ENROLL])
  }

  function Seal(packageId: string, point: SharePoint): Share {
    Envelope(SCHEMA_VERSION, packageId, point.index as int, Bytes(point.value))
  }

  function SealAll(packageId: string, points: seq<SharePoint>): seq<Share> {
    seq(|points|, i requires 0 <= i < |points| => Seal(packageId, points[i]))
  }

  function CreateResult(digest: seq<Element> -> string, q: CreateRequest,
                        random: seq<Element>): Result<Package, Error>
  {
    if !ValidRequest(q) then Err(InvalidPackage)
    else
      match Split(q.secret, q.threshold, q.shares, random)
      case Err(e) => Err(e)
      case Ok(points) => Ok(Package(PackageMetadata(digest, q), SealAll(q.packageId, points)))
  }

  method Create(digest: seq<Element> -> string, q: CreateRequest, random: seq<Element>)
    returns (r: Result<Package, Error>)
    ensures r == CreateResult(digest, q, random)
  {
    hide Split;
    if !ValidRequest(q) {
      return Err(InvalidPackage);
    }
    var split := SplitSecret(q.secret, q.threshold, q.shares, random);
    if split.Err? {
      return Err(split.error);
    }
    var encoded: seq<Share> := [];
    for i := 0 to |split.value|
      invariant encoded == SealAll(q.packageId, split.value[..i])
    {
      encoded := encoded + [Seal(q.packageId, split.value[i])];
    }
    assert split.value[..|split.value|] == split.value;
    return Ok(Package(PackageMetadata(digest, q), encoded));
  }

  /** A share the recovery accepts for this package. */
  predicate Acceptable(m: Metadata, share: Share) {
    && share.Envelope?
    && share.schemaVersion == SCHEMA_VERSION
    && share.packageId == m.packageId
    && 0 < share.index <= m.shares
    && share.value.Bytes?
  }

  predicate AllAcceptable(m: Metadata, shares: seq<Share>) {
    && (forall i | 0 <= i < |shares| :: Acceptable(m, shares[i]))
    && (forall i, j | 0 <= i < j < |shares| :: shares[i].index != shares[j].index)
  }

  function Open(m: Metadata, share: Share): SharePoint
    requires m.shares <= 255 && Acceptable(m, share)
  {
    SharePoint(share.index as Element, share.value.bytes)
  }

  function OpenAll(m: Metadata, shares: seq<Share>): seq<SharePoint>
    requires m.shares <= 255 && AllAcceptable(m, shares)
  {
    seq(|shares|, i requires 0 <= i < |shares| => Open(m, shares[i]))
  }

  /** Only the first `threshold` shares take part. */
  function RecoverResult(digest: seq<Element> -> string, m: Metadata, shares: seq<Share>): Result<seq<Element>, Error> {
    if !ValidMetadata(m) then Err(InvalidPackage)
    else if |shares| < m.threshold then Err(ThresholdNotMet)
    else if !AllAcceptable(m, shares) then Err(InvalidShare)
    else
      match CombineResult(OpenAll(m, shares[..m.threshold]))
      case Err(e) => Err(e)
      case Ok(secret) => if Checksum(digest, secret) == m.secretChecksum then Ok(secret) else Err(InvalidShare)
  }

  method Recover(digest: seq<Element> -> string, m: Metadata, shares: seq<Share>)
    returns (r: Result<seq<Element>, Error>)
    ensures r == RecoverResult(digest, m, shares)
  {
    hide CombineResult;
    if !ValidMetadata(m) {
      return Err(InvalidPackage);
    }
    if |shares| < m.threshold {
      return Err(ThresholdNotMet);
    }
    var decoded := OpenShares(m, shares);
    if decoded.Err? {
      return Err(decoded.error);
    }
    var points := decoded.value[..m.threshold];
    assert points == OpenAll(m, shares[..m.threshold]);
    var combined := CombineShares(points);
    if combined.Err? {
      return combined;
    }
    if Checksum(digest, combined.value) != m.secretChecksum {
      return Err(InvalidShare);
    }
    return combined;
  }

  /** The acceptance loop: every share is checked, in order. */
  method OpenShares(m: Metadata, shares: seq<Share>) returns (r: Result<seq<SharePoint>, Error>)
    requires m.shares <= 255
    ensures r == if AllAcceptable(m, shares) then Ok(OpenAll(m, shares)) else Err(InvalidShare)
  {
    hide IndexSet;
    var points: seq<SharePoint> := [];
    var seen: set<Element> := {};
    assert seen == IndexSet(points) by { IndexSetEmpty(); }
    for i := 0 to |shares|
      invariant AllAcceptable(m, shares[..i])
      invariant points == OpenAll(m, shares[..i])
      invariant seen == IndexSet(points)
    {
      var share := shares[i];
      if share.Garbled? || share.schemaVersion != SCHEMA_VERSION || share.packageId != m.packageId
         || share.index <= 0 || share.index > m.shares
      {
        assert !Acceptable(m, shares[i]);
        return Err(InvalidShare);
      }
      var index := share.index as Element;
      if index in seen {
        DuplicateIndex(m, shares, i);
        return Err(InvalidShare);
      }
      seen := seen + {index};
      if share.value.Undecodable? {
        assert !Acceptable(m, shares[i]);
        return Err(InvalidShare);
      }
      ExtendAcceptable(m, shares, i);
      IndexSetAppend(points, SharePoint(index, share.value.bytes));
      points := points + [SharePoint(index, share.value.bytes)];
    }
    assert shares[..|shares|] == shares;
    return Ok(points);
  }

  function IndexSet(points: seq<SharePoint>): set<Element> {
    set k | 0 <= k < |points| :: points[k].index
  }

  lemma IndexSetEmpty()
    ensures IndexSet([]) == {}
  {
  }

  lemma IndexSetAppend(points: seq<SharePoint>, p: SharePoint)
    ensures IndexSet(points + [p]) == IndexSet(points) + {p.index}
  {
    assert (points + [p])[|points|] == p;
    forall k | 0 <= k < |points| ensures points[k].index in IndexSet(points + [p]) {
      assert (points + [p])[k] == points[k];
    }
  }

  lemma DuplicateIndex(m: Metadata, shares: seq<Share>, i: nat)
    requires i < |shares| && m.shares <= 255 && AllAcceptable(m, shares[..i])
    requires shares[i].Envelope? && 0 < shares[i].index <= m.shares
    requires shares[i].index as Element in IndexSet(OpenAll(m, shares[..i]))
    ensures !AllAcceptable(m, shares)
  {
    var points := OpenAll(m, shares[..i]);
    var k :| 0 <= k < |points| && points[k].index == shares[i].index as Element;
    assert Acceptable(m, shares[..i][k]);
    SameByte(shares[k].index, shares[i].index);
  }

  lemma ExtendAcceptable(m: Metadata, shares: seq<Share>, i: nat)
    requires i < |shares| && m.shares <= 255
    requires AllAcceptable(m, shares[..i]) && Acceptable(m, shares[i])
    requires shares[i].index as Element !in IndexSet(OpenAll(m, shares[..i]))
    ensures AllAcceptable(m, shares[..i + 1])
    ensures OpenAll(m, shares[..i + 1]) == OpenAll(m, shares[..i]) + [Open(m, shares[i])]
  {
    assert shares[..i + 1] == shares[..i] + [shares[i]];
    forall k | 0 <= k < i ensures shares[k].index != shares[i].index {
      assert OpenAll(m, shares[..i])[k] == Open(m, shares[..i][k]);
    }
  }

  lemma ByteOfInt(i: int)
    requires 0 <= i < 256
    ensures i as Element as int == i
  {
    assert i % 256 == i;
  }

  lemma SameByte(i: int, j: int)
    requires 0 <= i < 256 && 0 <= j < 256
    ensures i as Element == j as Element <==> i == j
  {
    ByteOfInt(i);
    ByteOfInt(j);
  }

  // ---------------------------------------------------------------------
  // What the packages promise
  // ---------------------------------------------------------------------

  /** Any set of at least `threshold` distinct issued points, in any order,
      combines to the secret: supersets give the same bytes. */
  lemma AnyEnoughPointsCombine(secret: seq<Element>, threshold: nat, shares: nat, random: seq<Element>,
                               picked: seq<SharePoint>)
    requires 1 <= threshold && shares <= 255 && Split(secret, threshold, shares, random).Ok?
    requires |picked| >= threshold
    requires forall i | 0 <= i < |picked| :: picked[i] in Split(secret, threshold, shares, random).value
    requires forall i, j | 0 <= i < j < |picked| :: picked[i] != picked[j]
    ensures CombineResult(picked) == Ok(secret)
  {
    hide Combine, Basis, Eval, Draw;
    var rows := Draw(secret, threshold, random).rows;
    DrawShape(secret, threshold, random);
    forall i | 0 <= i < |picked|
      ensures picked[i].index != 0 && picked[i].value == ValueAt(rows, picked[i].index)
    {
      var issued := Points(rows, shares);
      assert picked[i] in issued;
      var k :| 0 <= k < |issued| && picked[i] == issued[k];
      assert issued[k] == PointAt(rows, k);
      SameByte(k + 1, 0);
    }
    assert Distinct(Indexes(picked));
    assert Combinable(picked);
    forall o | 0 <= o < |secret| ensures CombinedByte(picked, o) == secret[o] {
      var xs := Indexes(picked);
      assert Column(picked, o) == Evals(rows[o], xs);
      CombineRecovers(rows[o], xs);
      EvalAtZero(rows[o]);
    }
    assert CombinedSecret(picked) == secret;
  }

  /** The headline: every package whose creation time reads back opens with any
      `threshold` or more distinct issued shares, in any order, and yields
      exactly the secret; any other package is refused as invalid. */
  lemma RecoverInvertsCreate(digest: seq<Element> -> string, q: CreateRequest, random: seq<Element>, picked: seq<Share>)
    requires CreateResult(digest, q, random).Ok?
    requires |picked| >= q.threshold
    requires forall i | 0 <= i < |picked| :: picked[i] in CreateResult(digest, q, random).value.shares
    requires forall i, j | 0 <= i < j < |picked| :: picked[i] != picked[j]
    ensures RecoverResult(digest, CreateResult(digest, q, random).value.metadata, picked)
            == if -62167219200 * SECOND <= q.now < 253402300800 * SECOND then Ok(q.secret) else Err(InvalidPackage)
  {
    hide Split, CombineResult, Acceptable, AllAcceptable, OpenAll, Open;
    var m := PackageMetadata(digest, q);
    var points := Split(q.secret, q.threshold, q.shares, random).value;
    PickedAreAcceptable(digest, q, random, picked);
    PickedAreAcceptable(digest, q, random, picked[..q.threshold]);
    var used := OpenAll(m, picked[..q.threshold]);
    UsedAreIssued(digest, q, random, picked[..q.threshold]);
    AnyEnoughPointsCombine(q.secret, q.threshold, q.shares, random, used);
  }

  lemma PickedAreAcceptable(digest: seq<Element> -> string, q: CreateRequest, random: seq<Element>, picked: seq<Share>)
    requires CreateResult(digest, q, random).Ok?
    requires forall i | 0 <= i < |picked| :: picked[i] in CreateResult(digest, q, random).value.shares
    requires forall i, j | 0 <= i < j < |picked| :: picked[i] != picked[j]
    ensures AllAcceptable(PackageMetadata(digest, q), picked)
  {
    hide Split;
    var points := Split(q.secret, q.threshold, q.shares, random).value;
    forall i | 0 <= i < |picked|
      ensures Acceptable(PackageMetadata(digest, q), picked[i])
      ensures 1 <= picked[i].index <= |points| && picked[i] == Seal(q.packageId, points[picked[i].index - 1])
    {
      var k := IssuedAs(digest, q, random, picked[i]);
    }
  }

  /** Which point a share of the package seals. */
  lemma IssuedAs(digest: seq<Element> -> string, q: CreateRequest, random: seq<Element>, share: Share) returns (k: nat)
    requires CreateResult(digest, q, random).Ok? && share in CreateResult(digest, q, random).value.shares
    ensures k < |Split(q.secret, q.threshold, q.shares, random).value| && k < q.shares
    ensures share == Seal(q.packageId, Split(q.secret, q.threshold, q.shares, random).value[k]) && share.index == k + 1
  {
    hide Split;
    var sealed := SealAll(q.packageId, Split(q.secret, q.threshold, q.shares, random).value);
    k :| 0 <= k < |sealed| && share == sealed[k];
    IssuedIndex(q, random, k);
  }

  lemma UsedAreIssued(digest: seq<Element> -> string, q: CreateRequest, random: seq<Element>, used: seq<Share>)
    requires CreateResult(digest, q, random).Ok? && AllAcceptable(PackageMetadata(digest, q), used)
    requires forall i | 0 <= i < |used| :: used[i] in CreateResult(digest, q, random).value.shares
    ensures forall points | points == OpenAll(PackageMetadata(digest, q), used) ::
              && |points| == |used|
              && (forall i | 0 <= i < |points| :: points[i] in Split(q.secret, q.threshold, q.shares, random).value)
              && (forall i, j | 0 <= i < j < |points| :: points[i] != points[j])
  {
    hide Split;
    var m := PackageMetadata(digest, q);
    var points := OpenAll(m, used);
    forall i | 0 <= i < |points|
      ensures points[i] in Split(q.secret, q.threshold, q.shares, random).value
              && points[i].index as int == used[i].index
    {
      var k := IssuedAs(digest, q, random, used[i]);
      IssuedIndex(q, random, k);
    }
  }

  lemma IssuedIndex(q: CreateRequest, random: seq<Element>, k: nat)
    requires ValidRequest(q) && Split(q.secret, q.threshold, q.shares, random).Ok?
    requires k < |Split(q.secret, q.threshold, q.shares, random).value|
    ensures k < q.shares && Split(q.secret, q.threshold, q.shares, random).value[k].index as int == k + 1
    ensures (k + 1) as Element == Split(q.secret, q.threshold, q.shares, random).value[k].index
  {
    hide Draw;
    ByteOfInt(k + 1);
  }

  /** Whatever shares are presented, a result carries the package's checksum. */
  lemma RecoverChecksOut(digest: seq<Element> -> string, q: CreateRequest, random: seq<Element>, presented: seq<Share>)
    requires CreateResult(digest, q, random).Ok?
    ensures var r := RecoverResult(digest, CreateResult(digest, q, random).value.metadata, presented);
            r.Ok? ==> digest(r.value) == digest(q.secret)
  {
    hide Split, CombineResult;
    var m := CreateResult(digest, q, random).value.metadata;
    var r := RecoverResult(digest, m, presented);
    if r.Ok? {
      assert Checksum(digest, r.value) == CHECKSUM_PREFIX + digest(q.secret);
      assert digest(r.value) == Checksum(digest, r.value)[|CHECKSUM_PREFIX|..];
    }
  }

  /** Splitting fails only when the stream is too short. */
  lemma {:induction false} DrawNeeds(secret: seq<Element>, threshold: nat, random: seq<Element>)
    requires threshold >= 1
    ensures Draw(secret, threshold, random).Drawn? <==> |random| >= |secret| * (threshold - 1)
    ensures Draw(secret, threshold, random).Drawn? ==>
              |Draw(secret, threshold, random).rest| == |random| - |secret| * (threshold - 1)
  {
    if secret != [] {
      var t := threshold - 1;
      assert |secret| * t == (|secret| - 1) * t + t;
      if |random| >= t {
        DrawNeeds(secret[1..], threshold, random[t..]);
      } else {
        assert (|secret| - 1) * t >= 0;
      }
    }
  }

  // ---------------------------------------------------------------------
  // Fewer shares than the threshold say nothing about the secret
  // ---------------------------------------------------------------------

  /** `random` is a complete draw under which `candidate` yields these shares. */
  predicate Explains(candidate: seq<Element>, threshold: nat, xs: seq<Element>, observed: seq<seq<Element>>,
                     random: seq<Element>)
    requires threshold >= 1
  {
    var d := Draw(candidate, threshold, random);
    && |observed| == |xs|
    && d.Drawn? && d.rest == []
    && forall i | 0 <= i < |xs| :: ValueAt(d.rows, xs[i]) == observed[i]
  }

  predicate Aligned(observed: seq<seq<Element>>, n: nat) {
    forall i | 0 <= i < |observed| :: |observed[i]| == n
  }

  function Heads(observed: seq<seq<Element>>): seq<Element>
    requires forall i | 0 <= i < |observed| :: |observed[i]| > 0
  {
    seq(|observed|, i requires 0 <= i < |observed| => observed[i][0])
  }

  function Tails(observed: seq<seq<Element>>): seq<seq<Element>>
    requires forall i | 0 <= i < |observed| :: |observed[i]| > 0
  {
    seq(|observed|, i requires 0 <= i < |observed| => observed[i][1..])
  }

  /** One byte at a time: a draw explains the shares exactly when its first row
      runs through the first bytes and the rest explains the rest. */
  lemma ExplainsStep(candidate: seq<Element>, threshold: nat, xs: seq<Element>, observed: seq<seq<Element>>,
                     random: seq<Element>)
    requires threshold >= 1 && candidate != [] && |observed| == |xs| && Aligned(observed, |candidate|)
    ensures Explains(candidate, threshold, xs, observed, random)
       <==> && |random| >= threshold - 1
            && Evals([candidate[0]] + random[..threshold - 1], xs) == Heads(observed)
            && Explains(candidate[1..], threshold, xs, Tails(observed), random[threshold - 1..])
  {
    hide Eval;
    if |random| >= threshold - 1 && Draw(candidate[1..], threshold, random[threshold - 1..]).Drawn? {
      var row := [candidate[0]] + random[..threshold - 1];
      var more := Draw(candidate[1..], threshold, random[threshold - 1..]).rows;
      var rows := Draw(candidate, threshold, random).rows;
      DrawShape(candidate[1..], threshold, random[threshold - 1..]);
      assert rows == [row] + more;
      forall i | 0 <= i < |xs|
        ensures ValueAt(rows, xs[i]) == observed[i]
           <==> Eval(row, xs[i]) == observed[i][0] && ValueAt(more, xs[i]) == observed[i][1..]
      {
        assert ValueAt(rows, xs[i]) == [Eval(row, xs[i])] + ValueAt(more, xs[i]);
        assert observed[i] == [observed[i][0]] + observed[i][1..];
      }
      SameAsHeads(row, xs, observed);
    }
  }

  lemma SameAsHeads(row: seq<Element>, xs: seq<Element>, observed: seq<seq<Element>>)
    requires |observed| == |xs| && forall i | 0 <= i < |observed| :: |observed[i]| > 0
    ensures Evals(row, xs) == Heads(observed) <==> forall i | 0 <= i < |xs| :: Eval(row, xs[i]) == observed[i][0]
  {
    hide Eval;
    if Evals(row, xs) == Heads(observed) {
      forall i | 0 <= i < |xs| ensures Eval(row, xs[i]) == observed[i][0] {
        assert Evals(row, xs)[i] == Heads(observed)[i];
      }
    }
  }

  /** A row with constant coefficient s through the points (xs, vs). */
  lemma RowThrough(s: Element, xs: seq<Element>, vs: seq<Element>) returns (tail: seq<Element>)
    requires |xs| == |vs| && Distinct([0] + xs)
    ensures |tail| == |xs| && Evals([s] + tail, xs) == vs
  {
    hide Eval, Interpolate;
    var c := Interpolate([0] + xs, [s] + vs);
    InterpolateHits([0] + xs, [s] + vs);
    assert Evals(c, [0] + xs)[0] == s;
    EvalAtZero(c);
    tail := c[1..];
    assert c == [s] + tail;
    forall i | 0 <= i < |xs| ensures Eval(c, xs[i]) == vs[i] {
      assert Evals(c, [0] + xs)[i + 1] == ([s] + vs)[i + 1];
    }
  }

  lemma RowUnique(s: Element, xs: seq<Element>, tail: seq<Element>, tail': seq<Element>)
    requires |tail| == |tail'| == |xs| && Distinct([0] + xs)
    requires Evals([s] + tail, xs) == Evals([s] + tail', xs)
    ensures tail == tail'
  {
    hide Eval;
    var c, c', nodes := [s] + tail, [s] + tail', [0] + xs;
    EvalAtZero(c);
    EvalAtZero(c');
    forall i | 0 <= i < |nodes| ensures Evals(c, nodes)[i] == Evals(c', nodes)[i] {
      if i > 0 {
        assert Evals(c, xs)[i - 1] == Evals(c', xs)[i - 1];
      }
    }
    InterpolationUnique(c, c', nodes);
    assert tail == c[1..] && tail' == c'[1..];
  }

  /** Given any `threshold - 1` share values at distinct non-zero indexes, every
      candidate secret of that length is explained by a draw ... */
  lemma {:induction false} EverySecretExplains(candidate: seq<Element>, threshold: nat, xs: seq<Element>,
                                               observed: seq<seq<Element>>)
    returns (random: seq<Element>)
    requires threshold >= 1 && |xs| == |observed| == threshold - 1
    requires Distinct([0] + xs) && Aligned(observed, |candidate|)
    ensures Explains(candidate, threshold, xs, observed, random)
  {
    hide Eval;
    if candidate == [] {
      random := [];
    } else {
      var tail := RowThrough(candidate[0], xs, Heads(observed));
      var rest := EverySecretExplains(candidate[1..], threshold, xs, Tails(observed));
      random := tail + rest;
      assert random[..threshold - 1] == tail && random[threshold - 1..] == rest;
      ExplainsStep(candidate, threshold, xs, observed, random);
    }
  }

  /** ... and by no more than one. */
  lemma {:induction false} OneExplanation(candidate: seq<Element>, threshold: nat, xs: seq<Element>,
                                          observed: seq<seq<Element>>,
                                          random: seq<Element>, random': seq<Element>)
    requires threshold >= 1 && |xs| == |observed| == threshold - 1
    requires Distinct([0] + xs) && Aligned(observed, |candidate|)
    requires Explains(candidate, threshold, xs, observed, random)
    requires Explains(candidate, threshold, xs, observed, random')
    ensures random == random'
  {
    hide Eval;
    if candidate != [] {
      var t := threshold - 1;
      ExplainsStep(candidate, threshold, xs, observed, random);
      ExplainsStep(candidate, threshold, xs, observed, random');
      RowUnique(candidate[0], xs, random[..t], random'[..t]);
      OneExplanation(candidate[1..], threshold, xs, Tails(observed), random[t..], random'[t..]);
      assert random == random[..t] + random[t..] && random' == random'[..t] + random'[t..];
    }
  }

  /** So `threshold - 1` shares are consistent with every secret, each through
      exactly one draw of the coefficients. */
  lemma TooFewSharesRevealNothing(candidate: seq<Element>, threshold: nat, xs: seq<Element>,
                                  observed: seq<seq<Element>>)
    requires threshold >= 1 && |xs| == |observed| == threshold - 1
    requires Distinct([0] + xs) && Aligned(observed, |candidate|)
    ensures exists random :: Explains(candidate, threshold, xs, observed, random)
    ensures forall r, r' | Explains(candidate, threshold, xs, observed, r)
                           && Explains(candidate, threshold, xs, observed, r') :: r == r'
  {
    var random := EverySecretExplains(candidate, threshold, xs, observed);
    forall r, r' | Explains(candidate, threshold, xs, observed, r) && Explains(candidate, threshold, xs, observed, r')
      ensures r == r'
    {
      OneExplanation(candidate, threshold, xs, observed, r, r');
    }
  }

  // ---------------------------------------------------------------------
  // What a package is made of, and what is refused
  // ---------------------------------------------------------------------

  /** The bytes of the stream that go into the polynomial of secret byte o. */
  function Coefficients(secret: seq<Element>, threshold: nat, random: seq<Element>, o: nat): seq<Element>
    requires threshold >= 1 && o < |secret| && |random| >= |secret| * (threshold - 1)
  {
    StreamPart(|secret|, threshold - 1, o);
    [secret[o]] + random[o * (threshold - 1)..(o + 1) * (threshold - 1)]
  }

  lemma StreamPart(n: nat, t: nat, o: nat)
    requires o < n
    ensures 0 <= o * t <= (o + 1) * t <= n * t
  {
    Grows(0, o, t);
    Grows(o, o + 1, t);
    Grows(o + 1, n, t);
  }

  lemma {:induction false} Grows(a: nat, b: nat, t: nat)
    requires a <= b
    ensures a * t <= b * t
    decreases b
  {
    if a < b {
      Grows(a, b - 1, t);
      assert b * t == (b - 1) * t + t;
    }
  }

  /** The stream is used in order, `threshold - 1` bytes for each secret byte. */
  lemma {:induction false} DrawRows(secret: seq<Element>, threshold: nat, random: seq<Element>, o: nat)
    requires threshold >= 1 && Draw(secret, threshold, random).Drawn? && o < |secret|
    ensures |random| >= |secret| * (threshold - 1) && o < |Draw(secret, threshold, random).rows|
    ensures Draw(secret, threshold, random).rows[o] == Coefficients(secret, threshold, random, o)
  {
    DrawNeeds(secret, threshold, random);
    DrawShape(secret, threshold, random);
    var t := threshold - 1;
    if o > 0 {
      DrawRows(secret[1..], threshold, random[t..], o - 1);
      StreamPart(|secret|, t, o);
      StreamPart(|secret| - 1, t, o - 1);
      assert (o - 1) * t + t == o * t && o * t + t == (o + 1) * t;
      assert random[t..][(o - 1) * t..o * t] == random[o * t..(o + 1) * t];
    }
  }

  predicate Printable(q: CreateRequest) {
    && ValidIdentifier(q.packageId) && ValidIdentifier(q.clusterId) && ValidIdentifier(q.keyId)
    && |q.secret| > 0 && 1 <= q.threshold <= q.shares <= 255
  }

  /** A package is created exactly for valid names, a secret, 1 <= threshold <=
      shares <= 255 and enough random bytes. */
  lemma CreateSucceedsIff(digest: seq<Element> -> string, q: CreateRequest, random: seq<Element>)
    ensures CreateResult(digest, q, random).Ok? <==>
              Printable(q) && |random| >= |q.secret| * (q.threshold - 1)
    ensures !Printable(q) ==> CreateResult(digest, q, random) == Err(InvalidPackage)
  {
    if Printable(q) {
      DrawNeeds(q.secret, q.threshold, random);
    }
  }

  /** The package holds as many shares as asked for: the k-th carries index k and,
      for each secret byte, the value at k of that byte's own polynomial. Its
      metadata repeats the request. */
  lemma CreateIssues(digest: seq<Element> -> string, q: CreateRequest, random: seq<Element>, k: nat)
    requires CreateResult(digest, q, random).Ok? && 1 <= k <= q.shares
    ensures |random| >= |q.secret| * (q.threshold - 1)
    ensures forall package | package == CreateResult(digest, q, random).value ::
              && |package.shares| == q.shares
              && package.shares[k - 1].Envelope? && package.shares[k - 1].value.Bytes?
              && package.shares[k - 1].schemaVersion == 1 && package.shares[k - 1].packageId == q.packageId
              && package.shares[k - 1].index == k
              && |package.shares[k - 1].value.bytes| == |q.secret|
              && (forall o | 0 <= o < |q.secret| ::
                    package.shares[k - 1].value.bytes[o]
                    == Eval(Coefficients(q.secret, q.threshold, random, o), k as Element))
    ensures forall m | m == CreateResult(digest, q, random).value.metadata ::
              && m.packageId == q.packageId && m.clusterId == q.clusterId && m.keyId == q.keyId
              && m.threshold == q.threshold && m.shares == q.shares && m.secretChecksum == "sha256:" + digest(q.secret)
  {
    hide Eval, Draw;
    CreateSucceedsIff(digest, q, random);
    var rows := Draw(q.secret, q.threshold, random).rows;
    DrawShape(q.secret, q.threshold, random);
    ByteOfInt(k);
    var point := PointAt(rows, k - 1);
    assert Split(q.secret, q.threshold, q.shares, random).value[k - 1] == point;
    forall o | 0 <= o < |q.secret|
      ensures point.value[o] == Eval(Coefficients(q.secret, q.threshold, random, o), k as Element)
    {
      DrawRows(q.secret, q.threshold, random, o);
    }
  }

  /** Metadata that recovery accepts, field by field. */
  predicate Readable(m: Metadata) {
    && m.schemaVersion == 1 && m.kdf == "none" && m.wrappingAlgorithm == "AES-256-GCM"
    && ValidIdentifier(m.packageId) && ValidIdentifier(m.clusterId) && ValidIdentifier(m.keyId)
    && 1 <= m.threshold <= m.shares <= 255
    && |m.secretChecksum| >= 7 && m.secretChecksum[..7] == "sha256:"
    && !m.createdAt.Unparsable? && "recover-enroll" in m.allowedOperations
  }

  /** Shares that recovery accepts for it: each an envelope of this package with
      an index in range, and no index twice. */
  predicate Presentable(m: Metadata, shares: seq<Share>) {
    && (forall i | 0 <= i < |shares| ::
          && shares[i].Envelope? && shares[i].schemaVersion == 1 && shares[i].packageId == m.packageId
          && 1 <= shares[i].index <= m.shares && !shares[i].value.Undecodable?)
    && (forall i, j | 0 <= i < j < |shares| :: shares[i].index != shares[j].index)
  }

  /** What is refused, and as what; a result has the package's checksum. */
  lemma RecoverRefuses(digest: seq<Element> -> string, m: Metadata, shares: seq<Share>)
    ensures !Readable(m) ==> RecoverResult(digest, m, shares) == Err(InvalidPackage)
    ensures Readable(m) && |shares| < m.threshold ==> RecoverResult(digest, m, shares) == Err(ThresholdNotMet)
    ensures Readable(m) && |shares| >= m.threshold && !Presentable(m, shares) ==>
              RecoverResult(digest, m, shares) == Err(InvalidShare)
    ensures RecoverResult(digest, m, shares).Ok? ==>
              m.secretChecksum == "sha256:" + digest(RecoverResult(digest, m, shares).value)
  {
    hide CombineResult;
    assert CHECKSUM_PREFIX <= m.secretChecksum <==> |m.secretChecksum| >= 7 && m.secretChecksum[..7] == "sha256:";
    assert Presentable(m, shares) <==> AllAcceptable(m, shares);
  }

  /** Combining refuses an empty list, a zero or repeated index and values of
      different lengths, and nothing else. */
  lemma CombineRefuses(points: seq<SharePoint>)
    ensures points == [] ==> CombineResult(points) == Err(ThresholdNotMet)
    ensures CombineResult(points).Ok? <==>
              && |points| > 0
              && (forall i | 0 <= i < |points| :: points[i].index != 0 && |points[i].value| == |points[0].value|)
              && (forall i, j | 0 <= i < j < |points| :: points[i].index != points[j].index)
    ensures points != [] && CombineResult(points).Err? ==> CombineResult(points) == Err(InvalidShare)
  {
    hide Combine;
    assert forall i | 0 <= i < |points| :: Indexes(points)[i] == points[i].index;
  }
}
