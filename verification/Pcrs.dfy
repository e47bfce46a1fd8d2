/** PCR selections and the digest over the selected values. */
module Pcrs {
  import opened Hex
  import opened Results
  import opened Sequences
  import Text

  datatype Error =
    | UnsupportedHash | EmptySelection | IndexOutOfRange | DuplicateIndex | MissingValue | WrongSize

  datatype Selection = Selection(hash: string, pcrs: seq<int>)

  const SHA1 := "sha1"
  const SHA256 := "sha256"
  const SHA384 := "sha384"
  const SHA512 := "sha512"

  /** The hash functions, by name. */
  type Hashes = (string, Bytes) -> Bytes

  function LowerChar(c: char): char {
    if 'A' <= c <= 'Z' then (c as int - 'A' as int + 'a' as int) as char else c
  }

  function Lower(s: string): string {
    seq(|s|, i requires 0 <= i < |s| => LowerChar(s[i]))
  }

  predicate HashName(name: string) {
    name == SHA1 || name == SHA256 || name == SHA384 || name == SHA512
  }

  function DigestSize(name: string): nat
    requires HashName(name)
  {
    if name == SHA1 then 20 else if name == SHA256 then 32 else if name == SHA384 then 48 else 64
  }

  function EffectiveHash(raw: string): string {
    var name := Lower(Text.TrimSpace(raw));
    if name == "" then SHA256 else name
  }

  // ---------------------------------------------------------------------
  // Sorting
  // ---------------------------------------------------------------------

  ghost predicate Increasing(s: seq<int>) {
    forall i, j | 0 <= i < j < |s| :: s[i] <= s[j]
  }

  predicate Strictly(s: seq<int>) {
    forall i, j | 0 <= i < j < |s| :: s[i] < s[j]
  }

  function Insert(x: int, s: seq<int>): seq<int> {
    if s == [] || x <= s[0] then [x] + s else [s[0]] + Insert(x, s[1..])
  }

  function Sort(s: seq<int>): seq<int> {
    if s == [] then [] else Insert(s[0], Sort(s[1..]))
  }

  lemma {:induction false} InsertKeeps(x: int, s: seq<int>, y: int)
    ensures |Insert(x, s)| == |s| + 1
    ensures y in Insert(x, s) <==> y == x || y in s
  {
    if s != [] && x > s[0] {
      InsertKeeps(x, s[1..], y);
      assert y in s <==> y == s[0] || y in s[1..];
    }
  }

  ghost predicate Bounds(x: int, s: seq<int>) {
    forall k | 0 <= k < |s| :: x <= s[k]
  }

  lemma {:induction false} InsertSorts(x: int, s: seq<int>)
    requires Increasing(s)
    ensures Increasing(Insert(x, s))
    ensures Strictly(Insert(x, s)) <==> Strictly(s) && x !in s
  {
    hide Strictly, Increasing, Bounds;
    if s != [] {
      assert s == [s[0]] + s[1..];
      IncreasingCons(s[0], s[1..]);
    }
    if s != [] && x > s[0] {
      InsertSorts(x, s[1..]);
      InsertBounds(s[0], x, s[1..]);
      IncreasingCons(s[0], Insert(x, s[1..]));
      StrictCons(s[0], Insert(x, s[1..]));
      StrictCons(s[0], s[1..]);
      InsertKeeps(x, s[1..], s[0]);
    } else {
      AllAbove(x, s);
      IncreasingCons(x, s);
      StrictCons(x, s);
    }
  }

  lemma AllAbove(x: int, s: seq<int>)
    requires Increasing(s) && (s == [] || x <= s[0])
    ensures Bounds(x, s)
  {
  }

  lemma InsertBounds(b: int, x: int, s: seq<int>)
    requires Bounds(b, s) && b <= x
    ensures Bounds(b, Insert(x, s))
  {
    var rest := Insert(x, s);
    forall k | 0 <= k < |rest| ensures b <= rest[k] {
      InsertKeeps(x, s, rest[k]);
    }
  }

  lemma IncreasingCons(x: int, s: seq<int>)
    ensures Increasing([x] + s) <==> Bounds(x, s) && Increasing(s)
  {
    var t := [x] + s;
    assert forall k | 0 <= k < |s| :: t[k + 1] == s[k];
    if Increasing(t) {
      forall i, j | 0 <= i < j < |s| ensures s[i] <= s[j] {
        assert t[i + 1] <= t[j + 1];
      }
      forall k | 0 <= k < |s| ensures x <= s[k] {
        assert t[0] <= t[k + 1];
      }
    }
  }

  lemma StrictCons(x: int, s: seq<int>)
    requires Bounds(x, s)
    ensures Strictly([x] + s) <==> x !in s && Strictly(s)
  {
    var t := [x] + s;
    assert forall k | 0 <= k < |s| :: t[k + 1] == s[k];
    if Strictly(t) {
      forall i, j | 0 <= i < j < |s| ensures s[i] < s[j] {
        assert t[i + 1] < t[j + 1];
      }
      forall k | 0 <= k < |s| ensures s[k] != x {
        assert t[0] < t[k + 1];
      }
    }
    if x !in s && Strictly(s) {
      forall i, j | 0 <= i < j < |t| ensures t[i] < t[j] {
        assert t[j] == s[j - 1] && s[j - 1] in s;
      }
    }
  }

  lemma {:induction false} SortSorts(s: seq<int>)
    ensures Increasing(Sort(s)) && |Sort(s)| == |s|
    ensures Distinct(s) <==> Strictly(Sort(s))
  {
    if s != [] {
      SortSorts(s[1..]);
      InsertSorts(s[0], Sort(s[1..]));
      InsertKeeps(s[0], Sort(s[1..]), s[0]);
      SortKeeps(s[1..], s[0]);
      assert Distinct(s) <==> s[0] !in s[1..] && Distinct(s[1..]);
    }
  }

  lemma {:induction false} SortKeeps(s: seq<int>, x: int)
    ensures x in Sort(s) <==> x in s
  {
    if s != [] {
      SortKeeps(s[1..], x);
      InsertKeeps(s[0], Sort(s[1..]), x);
      assert x in s <==> x == s[0] || x in s[1..];
    }
  }

  lemma SortKeepsAll(s: seq<int>)
    ensures forall x :: x in Sort(s) <==> x in s
  {
    forall x ensures x in Sort(s) <==> x in s {
      SortKeeps(s, x);
    }
  }

  /** A strictly increasing list is determined by its elements. */
  lemma {:induction false} OneOrder(s: seq<int>, t: seq<int>)
    requires Strictly(s) && Strictly(t)
    requires forall x :: x in s <==> x in t
    ensures s == t
  {
    if s != [] {
      var x := s[0];
      assert x in s;
    }
    if t != [] {
      var x := t[0];
      assert x in t;
    }
    if s != [] && t != [] {
      forall x ensures x in s[1..] <==> x in t[1..] {
        assert x in s[1..] ==> x in s && x != s[0];
        assert x in t[1..] ==> x in t && x != t[0];
      }
      OneOrder(s[1..], t[1..]);
      assert s == [s[0]] + s[1..] && t == [t[0]] + t[1..];
    }
  }

  // ---------------------------------------------------------------------
  // Normalizing a selection
  // ---------------------------------------------------------------------

  /** What a selection must be to be usable. */
  predicate Usable(s: Selection) {
    && HashName(EffectiveHash(s.hash))
    && s.pcrs != []
    && (forall i | 0 <= i < |s.pcrs| :: 0 <= s.pcrs[i] <= 23)
    && Distinct(s.pcrs)
  }

  predicate Normal(s: Selection) {
    Usable(s) && s.hash == EffectiveHash(s.hash) && Strictly(s.pcrs)
  }

  /** The selection with the same bank and set in normal form. */
  function Ordered(s: Selection): Selection {
    Selection(EffectiveHash(s.hash), Sort(s.pcrs))
  }

  /** Sorts a copy and scans it; refused exactly when the selection is not
      usable, and otherwise in normal form with the same bank and set. */
  method Normalize(s: Selection) returns (r: Result<Selection, Error>)
    ensures r.Ok? <==> Usable(s)
    ensures r.Ok? ==> r.value == Ordered(s) && Normal(r.value)
    ensures r.Ok? <==>
            && EffectiveHash(s.hash) in {"sha1", "sha256", "sha384", "sha512"} && |s.pcrs| > 0
            && (forall i | 0 <= i < |s.pcrs| :: 0 <= s.pcrs[i] <= 23)
            && (forall i, j | 0 <= i < j < |s.pcrs| :: s.pcrs[i] != s.pcrs[j])
    ensures r.Ok? ==> forall x :: x in r.value.pcrs <==> x in s.pcrs
  {
    hide Text.TrimSpace, Lower, Sort;
    var name := EffectiveHash(s.hash);
    if !HashName(name) {
      return Err(UnsupportedHash);
    }
    if |s.pcrs| == 0 {
      return Err(EmptySelection);
    }
    var pcrs := Sort(s.pcrs);
    SortSorts(s.pcrs);
    SortKeepsAll(s.pcrs);
    for i := 0 to |pcrs|
      invariant forall k | 0 <= k < i :: 0 <= pcrs[k] <= 23
      invariant Strictly(pcrs[..i])
    {
      if pcrs[i] < 0 || pcrs[i] > 23 {
        assert pcrs[i] in pcrs;
        return Err(IndexOutOfRange);
      }
      if i > 0 && pcrs[i] == pcrs[i - 1] {
        return Err(DuplicateIndex);
      }
    }
    assert pcrs[..|pcrs|] == pcrs;
    r := Ok(Selection(name, pcrs));
    UsableOrdered(s);
  }

  lemma HashNamesSettled(name: string)
    requires HashName(name)
    ensures EffectiveHash(name) == name
  {
    Text.TrimSpaceTrims(name);
    assert Lower(name) == name;
  }

  lemma UsableOrdered(s: Selection)
    requires HashName(EffectiveHash(s.hash))
    ensures s.pcrs != [] && Strictly(Sort(s.pcrs)) && (forall k | 0 <= k < |Sort(s.pcrs)| :: 0 <= Sort(s.pcrs)[k] <= 23)
            <==> Usable(s)
    ensures Usable(s) ==> Normal(Ordered(s))
  {
    hide Text.TrimSpace, Lower, Sort, EffectiveHash;
    HashNamesSettled(EffectiveHash(s.hash));
    SortSorts(s.pcrs);
    SortKeepsAll(s.pcrs);
    if forall k | 0 <= k < |Sort(s.pcrs)| :: 0 <= Sort(s.pcrs)[k] <= 23 {
      forall i | 0 <= i < |s.pcrs| ensures 0 <= s.pcrs[i] <= 23 {
        assert s.pcrs[i] in s.pcrs;
      }
    }
    if forall i | 0 <= i < |s.pcrs| :: 0 <= s.pcrs[i] <= 23 {
      forall k | 0 <= k < |Sort(s.pcrs)| ensures 0 <= Sort(s.pcrs)[k] <= 23 {
        assert Sort(s.pcrs)[k] in Sort(s.pcrs);
      }
    }
    if Strictly(Sort(s.pcrs)) {
      assert Distinct(Sort(s.pcrs));
    }
  }

  /** The normal form depends on the bank and the set only, and normalizing
      again changes nothing. */
  lemma NormalFormIsUnique(s: Selection, t: Selection)
    requires Usable(s) && Usable(t) && EffectiveHash(s.hash) == EffectiveHash(t.hash)
    requires forall x :: x in s.pcrs <==> x in t.pcrs
    ensures Ordered(s) == Ordered(t)
    ensures Ordered(Ordered(s)) == Ordered(s)
    ensures Normal(t) ==> Ordered(s) == t
  {
    hide Text.TrimSpace, Lower, Sort, EffectiveHash;
    SortSorts(s.pcrs);
    SortSorts(t.pcrs);
    SortKeepsAll(s.pcrs);
    SortKeepsAll(t.pcrs);
    OneOrder(Sort(s.pcrs), Sort(t.pcrs));
    SortSorts(Sort(s.pcrs));
    SortKeepsAll(Sort(s.pcrs));
    OneOrder(Sort(Sort(s.pcrs)), Sort(s.pcrs));
    HashNamesSettled(EffectiveHash(s.hash));
    if Normal(t) {
      OneOrder(Sort(t.pcrs), t.pcrs);
    }
  }

  lemma NormalIsFixed(s: Selection)
    requires Usable(s)
    ensures Normal(s) <==> Ordered(s) == s
  {
    hide Text.TrimSpace, Lower, Sort, EffectiveHash;
    if Normal(s) {
      NormalFormIsUnique(s, s);
    }
    UsableOrdered(s);
  }

  // ---------------------------------------------------------------------
  // The digest
  // ---------------------------------------------------------------------

  predicate Covers(s: Selection, values: map<int, Bytes>)
    requires HashName(EffectiveHash(s.hash))
  {
    forall x | x in s.pcrs :: x in values && |values[x]| == DigestSize(EffectiveHash(s.hash))
  }

  function Concat(pcrs: seq<int>, values: map<int, Bytes>): Bytes
    requires forall x | x in pcrs :: x in values
  {
    if pcrs == [] then []
    else
      var last := pcrs[|pcrs| - 1];
      assert last in pcrs;
      Concat(pcrs[..|pcrs| - 1], values) + values[last]
  }

  predicate Digestible(s: Selection, values: map<int, Bytes>) {
    Usable(s) && Covers(s, values)
  }

  function Digest(hashes: Hashes, s: Selection, values: map<int, Bytes>): Bytes
    requires Digestible(s, values)
  {
    SortKeepsAll(s.pcrs);
    hashes(EffectiveHash(s.hash), Concat(Sort(s.pcrs), values))
  }

  /** The hash over the selected values in the order of their indexes. */
  method ComputeDigest(hashes: Hashes, s: Selection, values: map<int, Bytes>) returns (r: Result<Bytes, Error>)
    ensures r.Ok? <==> Digestible(s, values)
    ensures r.Ok? ==> r.value == Digest(hashes, s, values)
  {
    hide Text.TrimSpace, Lower, Sort, EffectiveHash;
    var n := Normalize(s);
    if n.Err? {
      return Err(n.error);
    }
    SortKeepsAll(s.pcrs);
    var size := DigestSize(n.value.hash);
    var pcrs := n.value.pcrs;
    var written: Bytes := [];
    for i := 0 to |pcrs|
      invariant forall k | 0 <= k < i :: pcrs[k] in values && |values[pcrs[k]]| == size
      invariant written == Concat(pcrs[..i], values)
    {
      assert pcrs[i] in pcrs;
      if pcrs[i] !in values {
        return Err(MissingValue);
      }
      if |values[pcrs[i]]| != size {
        return Err(WrongSize);
      }
      assert pcrs[..i + 1][..i] == pcrs[..i];
      written := written + values[pcrs[i]];
    }
    assert pcrs[..|pcrs|] == pcrs;
    r := Ok(hashes(n.value.hash, written));
  }

  lemma {:induction false} ConcatAgrees(pcrs: seq<int>, v: map<int, Bytes>, w: map<int, Bytes>)
    requires forall x | x in pcrs :: x in v && x in w && v[x] == w[x]
    ensures Concat(pcrs, v) == Concat(pcrs, w)
  {
    if pcrs != [] {
      var last := pcrs[|pcrs| - 1];
      assert last in pcrs;
      ConcatAgrees(pcrs[..|pcrs| - 1], v, w);
    }
  }

  /** The digest depends on the bank, the set and the selected values only. */
  lemma DigestOfSet(hashes: Hashes, s: Selection, t: Selection, v: map<int, Bytes>, w: map<int, Bytes>)
    requires Digestible(s, v) && Usable(t) && EffectiveHash(s.hash) == EffectiveHash(t.hash)
    requires forall x :: x in s.pcrs <==> x in t.pcrs
    requires forall x | x in s.pcrs :: x in w && v[x] == w[x]
    ensures Digestible(t, w) && Digest(hashes, s, v) == Digest(hashes, t, w)
  {
    hide Text.TrimSpace, Lower, Sort, EffectiveHash;
    NormalFormIsUnique(s, t);
    SortKeepsAll(s.pcrs);
    ConcatAgrees(Sort(s.pcrs), v, w);
  }

  // ---------------------------------------------------------------------
  // Banks and the layout of the digest's input
  // ---------------------------------------------------------------------

  /** The bank a selection names: trimmed, in lower case, SHA-256 when blank. */
  lemma BankIs(raw: string, i: nat)
    ensures Text.TrimSpace(raw) == "" ==> EffectiveHash(raw) == "sha256"
    ensures Text.TrimSpace(raw) != "" ==> |EffectiveHash(raw)| == |Text.TrimSpace(raw)|
    ensures i < |Text.TrimSpace(raw)| ==>
              EffectiveHash(raw)[i] as int
              == Text.TrimSpace(raw)[i] as int + if 65 <= Text.TrimSpace(raw)[i] as int <= 90 then 32 else 0
  {
    hide Text.TrimSpace;
    assert |Lower(Text.TrimSpace(raw))| == |Text.TrimSpace(raw)|;
  }

  lemma BankSizes()
    ensures DigestSize("sha1") == 20 && DigestSize("sha256") == 32
    ensures DigestSize("sha384") == 48 && DigestSize("sha512") == 64
    ensures forall name :: HashName(name) <==> name in {"sha1", "sha256", "sha384", "sha512"}
  {
    assert |"sha1"| == 4 && |"sha256"| == 6 && "sha256"[3] == '2' && "sha384"[3] == '3' && "sha512"[3] == '5';
  }

  /** How many of the listed indexes are below x. */
  function Below(pcrs: seq<int>, x: int): nat {
    |set y | y in pcrs && y < x|
  }

  lemma {:induction false} PrefixSize(s: seq<int>)
    requires Strictly(s)
    ensures |set y | y in s| == |s|
  {
    if s != [] {
      var n := |s| - 1;
      PrefixSize(s[..n]);
      assert s == s[..n] + [s[n]];
      assert (set y | y in s) == (set y | y in s[..n]) + {s[n]};
      assert s[n] !in s[..n];
    }
  }

  lemma BelowIsPosition(pcrs: seq<int>, i: nat)
    requires Strictly(Sort(pcrs)) && i < |Sort(pcrs)|
    ensures Below(pcrs, Sort(pcrs)[i]) == i
  {
    hide Sort;
    var sorted := Sort(pcrs);
    SortKeepsAll(pcrs);
    var below := set y | y in pcrs && y < sorted[i];
    var front := set y | y in sorted[..i];
    forall y ensures y in below <==> y in front {
      if y in below {
        assert y in sorted;
        var k :| 0 <= k < |sorted| && sorted[k] == y;
        assert k < i;
        assert sorted[..i][k] == y;
      }
      if y in front {
        var k :| 0 <= k < i && sorted[..i][k] == y;
        assert sorted[k] == y && y in sorted;
      }
    }
    assert below == front;
    PrefixSize(sorted[..i]);
  }

  lemma {:induction false} ConcatLayout(pcrs: seq<int>, values: map<int, Bytes>, size: nat, i: nat)
    requires forall x | x in pcrs :: x in values && |values[x]| == size
    requires i < |pcrs|
    ensures |Concat(pcrs, values)| == |pcrs| * size
    ensures 0 <= i * size <= (i + 1) * size <= |pcrs| * size
    ensures Concat(pcrs, values)[i * size..(i + 1) * size] == values[pcrs[i]]
  {
    var n := |pcrs| - 1;
    var last := pcrs[n];
    assert last in pcrs;
    assert |pcrs| * size == n * size + size;
    var front := Concat(pcrs[..n], values);
    if n == 0 {
      assert pcrs[..0] == [] && front == [];
    } else {
      ConcatLayout(pcrs[..n], values, size, if i < n then i else 0);
    }
    assert |front| == n * size;
    assert i == n ==> i * size == n * size && (i + 1) * size == n * size + size;
    if i < n {
      assert Concat(pcrs, values)[i * size..(i + 1) * size] == front[i * size..(i + 1) * size];
    }
  }

  predicate BlockAt(input: Bytes, i: nat, size: nat, block: Bytes) {
    0 <= i * size <= (i + 1) * size <= |input| && input[i * size..(i + 1) * size] == block
  }

  /** The digest hashes the selected values one after the other, in the order of
      their indexes: the value of x stands after those of all lower indexes. */
  lemma DigestLayout(hashes: Hashes, s: Selection, values: map<int, Bytes>) returns (input: Bytes)
    requires Digestible(s, values)
    ensures Digest(hashes, s, values) == hashes(EffectiveHash(s.hash), input)
    ensures |input| == |s.pcrs| * DigestSize(EffectiveHash(s.hash))
    ensures forall x | x in s.pcrs :: BlockAt(input, Below(s.pcrs, x), DigestSize(EffectiveHash(s.hash)), values[x])
  {
    hide Sort, EffectiveHash, Text.TrimSpace, DigestSize, BlockAt, Below;
    SortKeepsAll(s.pcrs);
    SortSorts(s.pcrs);
    var sorted := Sort(s.pcrs);
    input := Concat(sorted, values);
    var size := DigestSize(EffectiveHash(s.hash));
    forall x | x in s.pcrs ensures BlockAt(input, Below(s.pcrs, x), size, values[x]) {
      assert x in sorted;
      var k :| 0 <= k < |sorted| && sorted[k] == x;
      BelowIsPosition(s.pcrs, k);
      BlockOfSorted(sorted, values, size, k);
    }
    assert sorted != [] ==> |input| == |sorted| * size by {
      if sorted != [] {
        ConcatLayout(sorted, values, size, 0);
      }
    }
  }

  lemma BlockOfSorted(pcrs: seq<int>, values: map<int, Bytes>, size: nat, i: nat)
    requires forall x | x in pcrs :: x in values && |values[x]| == size
    requires i < |pcrs|
    ensures BlockAt(Concat(pcrs, values), i, size, values[pcrs[i]])
  {
    hide Concat;
    ConcatLayout(pcrs, values, size, i);
  }
}
