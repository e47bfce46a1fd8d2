/** Key references and the label that names one in a wrapped blob:
    `<cluster>/<key>/v<version>`. */
module KeyRefs {
  import opened Identifiers

  const MAX_UINT32: nat := 0xffff_ffff

  type Uint32 = n: nat | n <= MAX_UINT32

  datatype KeyRef = KeyRef(clusterId: string, keyId: string, version: Uint32)

  datatype Parsed = Parsed(ref: KeyRef) | Malformed

  predicate ValidRef(r: KeyRef) {
    ValidIdentifier(r.clusterId) && ValidIdentifier(r.keyId) && r.version > 0
  }

  function Digit(d: nat): char
    requires d < 10
  {
    ('0' as int + d) as char
  }

  function DigitValue(c: char): nat
    requires IsDigit(c)
  {
    c as nat - '0' as nat
  }

  /** The decimal text of a number, without leading zeros. */
  function Decimal(n: nat): string {
    if n < 10 then [Digit(n)] else Decimal(n / 10) + [Digit(n % 10)]
  }

  predicate AllDigits(s: string) {
    forall i | 0 <= i < |s| :: IsDigit(s[i])
  }

  function Value(s: string): nat
    requires AllDigits(s)
  {
    if s == "" then 0 else Value(s[..|s| - 1]) * 10 + DigitValue(s[|s| - 1])
  }

  function Label(r: KeyRef): string {
    r.clusterId + "/" + r.keyId + "/v" + Decimal(r.version)
  }

  /** The parts between slashes; n slashes give n + 1 parts. */
  function SplitSlash(s: string): (parts: seq<string>)
    ensures parts != []
  {
    if s == "" then [""]
    else
      var rest := SplitSlash(s[1..]);
      if s[0] == '/' then [""] + rest else [[s[0]] + rest[0]] + rest[1..]
  }

  datatype ParsedUint = Uint(value: Uint32) | NotUint

  /** An unsigned 32-bit number in decimal; leading zeros are accepted. */
  function ParseUint32(s: string): ParsedUint {
    if s == "" || !AllDigits(s) || Value(s) > MAX_UINT32 then NotUint else Uint(Value(s))
  }

  function ParseKeyRef(raw: string): Parsed {
    var parts := SplitSlash(raw);
    if |parts| != 3 then Malformed
    else if !("v" <= parts[2]) then Malformed
    else
      match ParseUint32(parts[2][1..])
      case NotUint => Malformed
      case Uint(version) =>
        var ref := KeyRef(parts[0], parts[1], version);
        if ValidRef(ref) then Parsed(ref) else Malformed
  }

  // ---------------------------------------------------------------------
  // Splitting
  // ---------------------------------------------------------------------

  predicate NoSlash(s: string) {
    '/' !in s
  }

  lemma {:induction false} SplitPlain(s: string)
    requires NoSlash(s)
    ensures SplitSlash(s) == [s]
  {
    if s != "" {
      SplitPlain(s[1..]);
      assert s == [s[0]] + s[1..];
    }
  }

  lemma {:induction false} SplitFirst(a: string, b: string)
    requires NoSlash(a)
    ensures SplitSlash(a + "/" + b) == [a] + SplitSlash(b)
  {
    var s := a + "/" + b;
    if a == "" {
      assert s[1..] == b;
    } else {
      assert s[1..] == a[1..] + "/" + b;
      SplitFirst(a[1..], b);
      assert a == [a[0]] + a[1..];
    }
  }

  function Join(parts: seq<string>): string
    requires parts != []
  {
    if |parts| == 1 then parts[0] else parts[0] + "/" + Join(parts[1..])
  }

  lemma {:induction false} JoinSplit(s: string)
    ensures Join(SplitSlash(s)) == s
    ensures forall i | 0 <= i < |SplitSlash(s)| :: NoSlash(SplitSlash(s)[i])
  {
    if s != "" {
      JoinSplit(s[1..]);
      var rest := SplitSlash(s[1..]);
      assert s == [s[0]] + s[1..];
      if s[0] == '/' {
        assert ([""] + rest)[1..] == rest;
      } else {
        var parts := [[s[0]] + rest[0]] + rest[1..];
        assert parts[1..] == rest[1..];
        if |rest| > 1 {
          assert parts[0] + "/" + Join(rest[1..]) == [s[0]] + (rest[0] + "/" + Join(rest[1..]));
        }
      }
    }
  }

  /** Exactly the texts with two slashes split into three given parts. */
  lemma SplitThree(raw: string, a: string, b: string, c: string)
    ensures SplitSlash(raw) == [a, b, c]
       <==> raw == a + "/" + b + "/" + c && NoSlash(a) && NoSlash(b) && NoSlash(c)
  {
    if SplitSlash(raw) == [a, b, c] {
      JoinSplit(raw);
      assert NoSlash(SplitSlash(raw)[0]) && NoSlash(SplitSlash(raw)[1]) && NoSlash(SplitSlash(raw)[2]);
      assert [a, b, c][1..] == [b, c] && [b, c][1..] == [c];
      assert Join([c]) == c && Join([b, c]) == b + "/" + c;
      assert raw == a + "/" + (b + "/" + c) == a + "/" + b + "/" + c;
    }
    if raw == a + "/" + b + "/" + c && NoSlash(a) && NoSlash(b) && NoSlash(c) {
      assert raw == a + "/" + (b + "/" + c);
      SplitFirst(a, b + "/" + c);
      SplitFirst(b, c);
      SplitPlain(c);
      assert [a] + ([b] + [c]) == [a, b, c];
    }
  }

  lemma IdentifierHasNoSlash(s: string)
    requires ValidIdentifier(s)
    ensures NoSlash(s)
  {
  }

  // ---------------------------------------------------------------------
  // Numbers
  // ---------------------------------------------------------------------

  function Zeros(k: nat): string {
    seq(k, i => '0')
  }

  lemma {:induction false} DecimalValue(n: nat)
    ensures AllDigits(Decimal(n)) && Value(Decimal(n)) == n
    ensures Decimal(n) != "" && (n > 0 ==> Decimal(n)[0] != '0')
  {
    if n >= 10 {
      DecimalValue(n / 10);
      var s := Decimal(n);
      assert s[..|s| - 1] == Decimal(n / 10);
    } else {
      assert Decimal(n)[..0] == "";
    }
  }

  lemma {:induction false} ZerosValue(k: nat, s: string)
    requires AllDigits(s)
    ensures AllDigits(Zeros(k) + s) && Value(Zeros(k) + s) == Value(s)
    decreases k + |s|
  {
    var z := Zeros(k) + s;
    if s != "" {
      var t := s[..|s| - 1];
      assert z[..|z| - 1] == Zeros(k) + t;
      ZerosValue(k, t);
    } else if k > 0 {
      assert z[..|z| - 1] == Zeros(k - 1) + "";
      ZerosValue(k - 1, "");
    } else {
      assert z == "";
    }
  }

  /** A digit text is zeros followed by the decimal text of its value. */
  lemma {:induction false} DigitsShape(s: string)
    requires AllDigits(s) && Value(s) > 0
    ensures exists k :: s == Zeros(k) + Decimal(Value(s))
  {
    var n := |s| - 1;
    var t, d := s[..n], DigitValue(s[n]);
    assert s == t + [Digit(d)];
    if Value(t) == 0 {
      AllZeros(t);
      assert s == Zeros(n) + Decimal(d);
    } else {
      DigitsShape(t);
      var k :| t == Zeros(k) + Decimal(Value(t));
      assert Value(s) / 10 == Value(t) && Value(s) % 10 == d;
      assert s == Zeros(k) + Decimal(Value(s));
    }
  }

  lemma {:induction false} AllZeros(s: string)
    requires AllDigits(s) && Value(s) == 0
    ensures s == Zeros(|s|)
  {
    if s != "" {
      var n := |s| - 1;
      AllZeros(s[..n]);
      assert s == s[..n] + [s[n]] && s[n] == '0';
    }
  }

  // ---------------------------------------------------------------------
  // The grammar, the round trip and canonical labels
  // ---------------------------------------------------------------------

  /** The label of a reference with k zeros in front of the version. */
  function PaddedLabel(r: KeyRef, k: nat): string {
    r.clusterId + "/" + r.keyId + "/" + ("v" + (Zeros(k) + Decimal(r.version)))
  }

  /** The texts the parser accepts, with what it makes of them. */
  ghost predicate Names(raw: string, r: KeyRef) {
    ValidRef(r) && exists k :: raw == PaddedLabel(r, k)
  }

  lemma ParseAccepts(raw: string, r: KeyRef)
    ensures ParseKeyRef(raw) == Parsed(r) <==> Names(raw, r)
  {
    if ParseKeyRef(raw) == Parsed(r) {
      var parts := SplitSlash(raw);
      var digits := parts[2][1..];
      assert parts == [r.clusterId, r.keyId, parts[2]];
      SplitThree(raw, r.clusterId, r.keyId, parts[2]);
      DigitsShape(digits);
      var k :| digits == Zeros(k) + Decimal(r.version);
      assert parts[2] == "v" + digits;
      assert raw == PaddedLabel(r, k);
    }
    if Names(raw, r) {
      var k :| raw == PaddedLabel(r, k);
      var digits := Zeros(k) + Decimal(r.version);
      var last := "v" + digits;
      DecimalValue(r.version);
      ZerosValue(k, Decimal(r.version));
      IdentifierHasNoSlash(r.clusterId);
      IdentifierHasNoSlash(r.keyId);
      assert NoSlash(last);
      SplitThree(raw, r.clusterId, r.keyId, last);
      assert last[1..] == digits;
    }
  }

  lemma LabelUnpadded(r: KeyRef)
    ensures Label(r) == PaddedLabel(r, 0)
  {
    assert Zeros(0) + Decimal(r.version) == Decimal(r.version);
  }

  /** Parsing inverts printing on every valid reference. */
  lemma ParseInvertsLabel(r: KeyRef)
    requires ValidRef(r)
    ensures ParseKeyRef(Label(r)) == Parsed(r)
  {
    LabelUnpadded(r);
    ParseAccepts(Label(r), r);
  }

  lemma LabelInjective(r: KeyRef, r': KeyRef)
    requires ValidRef(r) && ValidRef(r') && Label(r) == Label(r')
    ensures r == r'
  {
    ParseInvertsLabel(r);
    ParseInvertsLabel(r');
  }

  /** Parsing then printing canonicalises: it drops the zeros in front of the
      version and nothing else, and a second round changes nothing. */
  lemma Canonicalises(raw: string) returns (k: nat)
    requires ParseKeyRef(raw).Parsed?
    ensures ParseKeyRef(Label(ParseKeyRef(raw).ref)) == ParseKeyRef(raw)
    ensures raw == PaddedLabel(ParseKeyRef(raw).ref, k)
    ensures Label(ParseKeyRef(raw).ref) == raw <==> k == 0
  {
    var r := ParseKeyRef(raw).ref;
    ParseAccepts(raw, r);
    ParseInvertsLabel(r);
    LabelUnpadded(r);
    k :| raw == PaddedLabel(r, k);
    assert |PaddedLabel(r, k)| == |PaddedLabel(r, 0)| + k;
  }

  /** Decimal text, digit by digit. */
  lemma DecimalDigits(n: nat)
    ensures n < 10 ==> Decimal(n) == ["0123456789"[n]]
    ensures n >= 10 ==> Decimal(n) == Decimal(n / 10) + ["0123456789"[n % 10]]
  {
    var digits := "0123456789";
    assert digits[0] == '0' && digits[1] == '1' && digits[2] == '2' && digits[3] == '3' && digits[4] == '4';
    assert digits[5] == '5' && digits[6] == '6' && digits[7] == '7' && digits[8] == '8' && digits[9] == '9';
  }
}
