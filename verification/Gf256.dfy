/** Arithmetic of the byte field used by the recovery shares: GF(2^8) with the
    reduction polynomial x^8 + x^4 + x^3 + x + 1 (section 4.2 of FIPS 197).

    `Mul`, `Pow` and `Div` specify the hand-written loops `GfMul`, `GfPow` and
    `GfDiv`. The field laws are proved by induction on the bits of a factor and
    by the additivity of squaring; nothing is enumerated over the 256 elements.
 */
module Gf256 {

  /** A byte, as an element of the field. */
  type Element = bv8

  /** Field addition; subtraction is the same operation. */
  function Add(a: Element, b: Element): Element {
    a ^ b
  }

  /** Multiplication by x: shift, and reduce when the top bit falls out. */
  function XTime(a: Element): Element {
    if a & 0x80 != 0 then (a << 1) ^ 0x1b else a << 1
  }

  /** `a` when the lowest bit of `b` is set. */
  function Bit(b: Element, a: Element): Element {
    if b & 1 != 0 then a else 0
  }

  /** The product, one bit of `b` at a time. */
  function Mul(a: Element, b: Element): Element
    decreases b
  {
    if b == 0 then 0 else Add(Bit(b, a), Mul(XTime(a), b >> 1))
  }

  function Square(a: Element): Element {
    Mul(a, a)
  }

  /** The iterated product. */
  function Pow(a: Element, n: nat): Element {
    if n == 0 then 1 else Mul(Pow(a, n - 1), a)
  }

  function Div(a: Element, b: Element): Element {
    Mul(a, Pow(b, 254))
  }

  // ---------------------------------------------------------------------
  // Bit-level facts
  // ---------------------------------------------------------------------

  lemma AddCommutes(a: Element, b: Element)
    ensures Add(a, b) == Add(b, a)
  {
  }

  lemma AddAssociates(a: Element, b: Element, c: Element)
    ensures Add(Add(a, b), c) == Add(a, Add(b, c))
  {
    assert (a ^ b) ^ c == a ^ (b ^ c);
  }

  lemma AddZero(a: Element)
    ensures Add(a, 0) == a == Add(0, a)
  {
  }

  lemma AddCancels(a: Element, b: Element)
    ensures Add(a, b) == 0 <==> a == b
  {
  }

  lemma AddTwice(a: Element, b: Element)
    ensures Add(a, Add(a, b)) == b
  {
    hide *;
    AddCancels(a, a);
    AddAssociates(a, a, b);
    AddZero(b);
  }

  lemma AddSwap(p: Element, q: Element, r: Element, s: Element)
    ensures Add(Add(p, q), Add(r, s)) == Add(Add(p, r), Add(q, s))
  {
    hide *;
    AddAssociates(p, q, Add(r, s));
    AddAssociates(q, r, s);
    AddCommutes(q, r);
    AddAssociates(r, q, s);
    AddAssociates(p, r, Add(q, s));
  }

  lemma XTimeShape(a: Element)
    ensures XTime(a) == (a << 1) ^ ((a >> 7) * 0x1b)
  {
  }

  lemma XTimeAdd(a: Element, b: Element)
    ensures XTime(Add(a, b)) == Add(XTime(a), XTime(b))
  {
    XTimeShape(a);
    XTimeShape(b);
    XTimeShape(a ^ b);
  }

  lemma BitAddValue(b: Element, a: Element, a': Element)
    ensures Bit(b, Add(a, a')) == Add(Bit(b, a), Bit(b, a'))
  {
  }

  lemma BitAddSelector(b: Element, b': Element, a: Element)
    ensures Bit(Add(b, b'), a) == Add(Bit(b, a), Bit(b', a))
    ensures Add(b, b') >> 1 == Add(b >> 1, b' >> 1)
  {
    var p, q := b & 1, b' & 1;
    assert p == 0 || p == 1;
    assert q == 0 || q == 1;
    assert (b ^ b') & 1 == p ^ q;
  }

  lemma BitXTime(b: Element, a: Element)
    ensures XTime(Bit(b, a)) == Bit(b, XTime(a))
  {
  }

  /** A byte is its lowest bit plus x times the rest. */
  lemma SplitLowBit(b: Element)
    ensures b == Add(Bit(b, 1), XTime(b >> 1))
    ensures Bit(b, 1) == 0 || Bit(b, 1) == 1
  {
    XTimeShape(b >> 1);
    assert (b >> 1) >> 7 == 0;
    assert b == (b & 1) ^ ((b >> 1) << 1);
    assert b & 1 == 0 || b & 1 == 1;
  }

  // ---------------------------------------------------------------------
  // Multiplication is bilinear, commutative and associative
  // ---------------------------------------------------------------------

  lemma MulStep(a: Element, b: Element)
    ensures Mul(a, b) == Add(Bit(b, a), Mul(XTime(a), b >> 1))
  {
  }

  lemma {:induction false} MulAddLeft(a: Element, a': Element, b: Element)
    ensures Mul(Add(a, a'), b) == Add(Mul(a, b), Mul(a', b))
    decreases b
  {
    if b != 0 {
      hide *;
      var x, x', c := XTime(a), XTime(a'), b >> 1;
      MulStep(a, b);
      MulStep(a', b);
      MulStep(Add(a, a'), b);
      XTimeAdd(a, a');
      BitAddValue(b, a, a');
      MulAddLeft(x, x', c);
      AddSwap(Bit(b, a), Bit(b, a'), Mul(x, c), Mul(x', c));
    }
  }

  lemma {:induction false} MulAddRight(a: Element, b: Element, b': Element)
    ensures Mul(a, Add(b, b')) == Add(Mul(a, b), Mul(a, b'))
    decreases b, b'
  {
    if b == 0 && b' == 0 {
    } else {
      var x, c, c' := XTime(a), b >> 1, b' >> 1;
      assert b == 0 ==> c == 0;
      assert b != 0 ==> c < b;
      assert b' != 0 ==> c' < b';
      hide *;
      MulStep(a, b);
      MulStep(a, b');
      MulStep(a, Add(b, b'));
      BitAddSelector(b, b', a);
      MulAddRight(x, c, c');
      AddSwap(Bit(b, a), Bit(b', a), Mul(x, c), Mul(x, c'));
    }
  }

  lemma {:induction false} MulXTime(a: Element, b: Element)
    ensures Mul(XTime(a), b) == XTime(Mul(a, b))
    decreases b
  {
    if b != 0 {
      hide *;
      var x, c := XTime(a), b >> 1;
      MulStep(a, b);
      MulStep(x, b);
      MulXTime(x, c);
      XTimeAdd(Bit(b, a), Mul(x, c));
      BitXTime(b, a);
    }
  }

  lemma {:induction false} MulZero(b: Element)
    ensures Mul(0, b) == 0
    ensures Mul(b, 0) == 0
    decreases b
  {
    if b != 0 {
      MulZero(b >> 1);
    }
  }

  lemma {:induction false} MulOne(b: Element)
    ensures Mul(1, b) == b
    ensures Mul(b, 1) == b
    decreases b
  {
    MulStep(b, 1);
    MulZero(XTime(b));
    AddZero(b);
    if b != 0 {
      assert Mul(1, b) == b by {
        hide *;
        MulStep(1, b);
        MulOne(b >> 1);
        MulXTime(1, b >> 1);
        SplitLowBit(b);
      }
    }
  }

  lemma {:induction false} MulCommutes(a: Element, b: Element)
    ensures Mul(a, b) == Mul(b, a)
    decreases b
  {
    if b == 0 {
      MulZero(a);
    } else {
      var c, one := b >> 1, Bit(b, 1);
      assert Bit(b, a) == Mul(one, a) by {
        MulOne(a);
        MulZero(a);
      }
      hide *;
      SplitLowBit(b);
      MulAddLeft(one, XTime(c), a);
      MulXTime(c, a);
      MulCommutes(a, c);
      MulXTime(a, c);
      MulStep(a, b);
    }
  }

  lemma MulXTimeRight(a: Element, b: Element)
    ensures Mul(a, XTime(b)) == XTime(Mul(a, b))
  {
    hide *;
    MulCommutes(a, XTime(b));
    MulXTime(b, a);
    MulCommutes(a, b);
  }

  lemma {:induction false} MulAssociates(a: Element, b: Element, c: Element)
    ensures Mul(Mul(a, b), c) == Mul(a, Mul(b, c))
    decreases c
  {
    if c == 0 {
      MulZero(a);
      MulZero(b);
      MulZero(Mul(a, b));
    } else {
      var d := c >> 1;
      assert Bit(c, Mul(a, b)) == Mul(a, Bit(c, b)) by {
        MulZero(a);
      }
      hide *;
      MulStep(b, c);
      MulStep(Mul(a, b), c);
      MulXTimeRight(a, b);
      MulAssociates(a, XTime(b), d);
      MulAddRight(a, Bit(c, b), Mul(XTime(b), d));
    }
  }

  // ---------------------------------------------------------------------
  // Squaring is additive, so b^256 == b, and the only solutions of e^2 == e
  // are 0 and 1: the non-zero elements are invertible
  // ---------------------------------------------------------------------

  lemma SquareAdd(a: Element, b: Element)
    ensures Square(Add(a, b)) == Add(Square(a), Square(b))
  {
    hide Add, XTime, Bit, Mul;
    var aa, bb, ab := Mul(a, a), Mul(b, b), Mul(a, b);
    MulAddLeft(a, b, Add(a, b));
    MulAddRight(a, a, b);
    MulAddRight(b, a, b);
    MulCommutes(a, b);
    assert Square(Add(a, b)) == Add(Add(aa, ab), Add(ab, bb));
    AddAssociates(aa, ab, Add(ab, bb));
    AddTwice(ab, bb);
  }

  /** Squaring written out as a linear map on the bits: the columns are the
      squares of x^0 .. x^7. */
  function SquareMap(b: Element): Element {
    (b & 1) ^ (((b >> 1) & 1) * 0x04) ^ (((b >> 2) & 1) * 0x10) ^ (((b >> 3) & 1) * 0x40)
    ^ (((b >> 4) & 1) * 0x1b) ^ (((b >> 5) & 1) * 0x6c) ^ (((b >> 6) & 1) * 0xab) ^ (((b >> 7) & 1) * 0x9a)
  }

  lemma SquareMapStep(b: Element)
    ensures SquareMap(b) == Add(Bit(b, 1), XTime(XTime(SquareMap(b >> 1))))
  {
    XTimeShape(SquareMap(b >> 1));
    XTimeShape(XTime(SquareMap(b >> 1)));
    assert Bit(b, 1) == b & 1;
  }

  lemma {:induction false} SquareIsSquareMap(b: Element)
    ensures Square(b) == SquareMap(b)
    decreases b
  {
    if b != 0 {
      hide Add, XTime, Bit, Mul, SquareMap;
      var c, one := b >> 1, Bit(b, 1);
      SplitLowBit(b);
      SquareAdd(one, XTime(c));
      MulOne(1);
      MulZero(0);
      MulXTime(c, XTime(c));
      MulXTimeRight(c, c);
      SquareIsSquareMap(c);
      SquareMapStep(b);
    }
  }

  lemma SquareMapEightTimes(b: Element)
    ensures SquareMap(SquareMap(SquareMap(SquareMap(SquareMap(SquareMap(SquareMap(SquareMap(b)))))))) == b
  {
  }

  lemma {:induction false} PowAdd(a: Element, m: nat, n: nat)
    ensures Pow(a, m + n) == Mul(Pow(a, m), Pow(a, n))
    decreases n
  {
    hide Add, XTime, Bit, Mul;
    if n == 0 {
      MulOne(Pow(a, m));
    } else {
      PowAdd(a, m, n - 1);
      MulAssociates(Pow(a, m), Pow(a, n - 1), a);
    }
  }

  lemma {:induction false} PowTwice(a: Element, n: nat)
    ensures Pow(a, 2 * n) == Pow(Mul(a, a), n)
    ensures Pow(a, 2 * n) == SquareMap(Pow(a, n))
  {
    hide Add, XTime, Bit, Mul, SquareMap;
    PowAdd(a, n, n);
    SquareIsSquareMap(Pow(a, n));
    if n != 0 {
      PowTwice(a, n - 1);
      MulOne(a);
      PowAdd(a, 2 * (n - 1), 2);
      assert Pow(a, 1) == Mul(Pow(a, 0), a);
      assert Pow(a, 2) == Mul(Pow(a, 1), a);
    }
  }

  /** Fermat's identity for this field. */
  lemma Pow256(b: Element)
    ensures Pow(b, 256) == b
  {
    hide Add, XTime, Bit, Mul, SquareMap;
    assert Pow(b, 1) == b by {
      assert Pow(b, 1) == Mul(Pow(b, 0), b);
      MulOne(b);
    }
    PowTwice(b, 1);
    PowTwice(b, 2);
    PowTwice(b, 4);
    PowTwice(b, 8);
    PowTwice(b, 16);
    PowTwice(b, 32);
    PowTwice(b, 64);
    PowTwice(b, 128);
    SquareMapEightTimes(b);
  }

  /** The field law behind `GfDiv`: b^254 inverts b. With b^255 = e we have
      e * b == b and e * e == e, and only 0 and 1 are their own squares. */
  lemma InverseLaw(b: Element)
    requires b != 0
    ensures Mul(Pow(b, 254), b) == 1
  {
    hide Add, XTime, Bit, Mul, SquareMap;
    var e := Pow(b, 255);
    Pow256(b);
    assert Mul(e, e) == e by {
      PowAdd(b, 255, 255);
      PowAdd(b, 254, 256);
      assert Pow(b, 255) == Mul(Pow(b, 254), b);
    }
    assert Mul(e, b) == b by {
      assert Pow(b, 256) == Mul(Pow(b, 255), b);
    }
    SquareIsSquareMap(e);
    OwnSquare(e);
    MulZero(b);
    assert Pow(b, 255) == Mul(Pow(b, 254), b);
  }

  lemma OwnSquare(e: Element)
    requires SquareMap(e) == e
    ensures e == 0 || e == 1
  {
  }

  /** Division undoes multiplication, for every non-zero divisor. */
  lemma DivTimesDivisor(a: Element, b: Element)
    requires b != 0
    ensures Mul(Div(a, b), b) == a
  {
    hide Add, XTime, Bit, Mul, Pow;
    MulAssociates(a, Pow(b, 254), b);
    InverseLaw(b);
    MulOne(a);
  }

  lemma NoZeroDivisors(a: Element, b: Element)
    requires Mul(a, b) == 0
    ensures a == 0 || b == 0
  {
    if b != 0 {
      hide Add, XTime, Bit, Mul, Pow;
      var inv := Pow(b, 254);
      InverseLaw(b);
      MulCommutes(inv, b);
      MulAssociates(a, b, inv);
      MulOne(a);
      MulZero(inv);
    }
  }

  // ---------------------------------------------------------------------
  // The product is the carry-less polynomial product modulo
  // x^8 + x^4 + x^3 + x + 1
  // ---------------------------------------------------------------------

  /** Polynomials over GF(2) of degree below 16. */
  type Polynomial2 = bv16

  function Plus(p: Polynomial2, q: Polynomial2): Polynomial2 {
    p ^ q
  }

  function Widen(a: Element): Polynomial2 {
    a as Polynomial2
  }

  function TimesX(p: Polynomial2): Polynomial2 {
    p << 1
  }

  /** The carry-less product: no reduction. */
  function CarrylessProduct(a: Element, b: Element): Polynomial2
    decreases b
  {
    if b == 0 then 0 else Plus(Widen(Bit(b, a)), TimesX(CarrylessProduct(a, b >> 1)))
  }

  /** q * (x^8 + x^4 + x^3 + x + 1), exact for q below 256. */
  function TimesModulus(q: Polynomial2): Polynomial2 {
    q ^ (q << 1) ^ (q << 3) ^ (q << 4) ^ (q << 8)
  }

  /** p == q * modulus + r. */
  predicate DividesInto(p: Polynomial2, q: Polynomial2, r: Element) {
    q < 256 && p == Plus(TimesModulus(q), Widen(r))
  }

  function TopBit(r: Element): Polynomial2 {
    (r >> 7) as Polynomial2
  }

  /** The quotient the reductions of the multiplication loop add up to. */
  function Quotient(a: Element, b: Element): Polynomial2
    decreases b
  {
    if b == 0 then 0 else Plus(TimesX(Quotient(a, b >> 1)), TopBit(Mul(a, b >> 1)))
  }

  lemma {:induction false} QuotientBound(a: Element, b: Element, m: Polynomial2)
    requires m != 0 && m & (m - 1) == 0 && m <= 256
    requires b as Polynomial2 < m
    ensures Quotient(a, b) < m
    decreases b
  {
    if b != 0 {
      hide Mul;
      var c := b >> 1;
      QuotientBound(a, c, m >> 1);
      assert TopBit(Mul(a, c)) <= 1;
    }
  }

  lemma PlusAssociates(p: Polynomial2, q: Polynomial2, r: Polynomial2)
    ensures Plus(Plus(p, q), r) == Plus(p, Plus(q, r))
  {
    assert (p ^ q) ^ r == p ^ (q ^ r);
  }

  lemma PlusCommutes(p: Polynomial2, q: Polynomial2)
    ensures Plus(p, q) == Plus(q, p)
  {
  }

  lemma TimesXPlus(p: Polynomial2, q: Polynomial2)
    ensures TimesX(Plus(p, q)) == Plus(TimesX(p), TimesX(q))
  {
    assert (p ^ q) << 1 == (p << 1) ^ (q << 1);
  }

  lemma TimesModulusNext0(q: Polynomial2)
    ensures TimesModulus(Plus(TimesX(q), 0)) == Plus(TimesX(TimesModulus(q)), TimesModulus(0))
  {
    assert Plus(TimesX(q), 0) == q << 1;
    assert TimesModulus(0) == 0;
    assert TimesModulus(q << 1) == TimesModulus(q) << 1;
  }

  lemma TimesModulusNext1(q: Polynomial2)
    ensures TimesModulus(Plus(TimesX(q), 1)) == Plus(TimesX(TimesModulus(q)), TimesModulus(1))
  {
  }

  lemma TimesModulusNext(q: Polynomial2, t: Polynomial2)
    requires t == 0 || t == 1
    ensures TimesModulus(Plus(TimesX(q), t)) == Plus(TimesX(TimesModulus(q)), TimesModulus(t))
  {
    hide *;
    if t == 0 {
      TimesModulusNext0(q);
    } else {
      TimesModulusNext1(q);
    }
  }

  lemma WidenAdd(a: Element, b: Element)
    ensures Widen(Add(a, b)) == Plus(Widen(a), Widen(b))
  {
  }

  /** x times a byte overflows into the top bit, one multiple of the modulus. */
  lemma WidenXTime(r: Element)
    ensures TimesX(Widen(r)) == Plus(TimesModulus(TopBit(r)), Widen(XTime(r)))
  {
    XTimeShape(r);
  }

  lemma ReduceOnce(q: Polynomial2, r: Element, low: Element)
    ensures Plus(Widen(low), TimesX(Plus(TimesModulus(q), Widen(r))))
         == Plus(TimesModulus(Plus(TimesX(q), TopBit(r))), Widen(Add(low, XTime(r))))
  {
    assert TopBit(r) == 0 || TopBit(r) == 1;
    hide *;
    var l, m, w := Widen(low), TimesX(TimesModulus(q)), Widen(XTime(r));
    var t := TimesModulus(TopBit(r));
    TimesXPlus(TimesModulus(q), Widen(r));
    WidenXTime(r);
    TimesModulusNext(q, TopBit(r));
    WidenAdd(low, XTime(r));
    assert Plus(l, Plus(m, Plus(t, w))) == Plus(Plus(m, t), Plus(l, w)) by {
      PlusAssociates(m, t, w);
      PlusAssociates(l, Plus(m, t), w);
      PlusCommutes(l, Plus(m, t));
      PlusAssociates(Plus(m, t), l, w);
    }
  }

  lemma ProductStep(a: Element, b: Element)
    requires b != 0
    ensures CarrylessProduct(a, b) == Plus(Widen(Bit(b, a)), TimesX(CarrylessProduct(a, b >> 1)))
    ensures Quotient(a, b) == Plus(TimesX(Quotient(a, b >> 1)), TopBit(Mul(a, b >> 1)))
    ensures b >> 1 < b
  {
    hide Plus, TimesX, TopBit, Mul, Bit, Widen;
  }

  lemma {:induction false} ProductSplits(a: Element, b: Element)
    ensures CarrylessProduct(a, b) == Plus(TimesModulus(Quotient(a, b)), Widen(Mul(a, b)))
    decreases b
  {
    if b != 0 {
      hide *;
      var c := b >> 1;
      ProductStep(a, b);
      ProductSplits(a, c);
      MulStep(a, b);
      MulXTime(a, c);
      ReduceOnce(Quotient(a, c), Mul(a, c), Bit(b, a));
    }
  }

  lemma RemainderUnique(q: Polynomial2, q': Polynomial2, r: Element, r': Element)
    requires q < 256 && q' < 256
    requires Plus(TimesModulus(q), Widen(r)) == Plus(TimesModulus(q'), Widen(r'))
    ensures r == r'
  {
  }

  /** `Mul` is the remainder of the carry-less product by the field polynomial,
      and the only byte that is. */
  lemma MulIsReducedProduct(a: Element, b: Element, r: Element)
    ensures r == Mul(a, b) <==> exists q :: DividesInto(CarrylessProduct(a, b), q, r)
  {
    hide TimesModulus, CarrylessProduct, Mul, Quotient, Plus, Widen;
    ProductSplits(a, b);
    QuotientBound(a, b, 256);
    assert DividesInto(CarrylessProduct(a, b), Quotient(a, b), Mul(a, b));
    if q :| DividesInto(CarrylessProduct(a, b), q, r) {
      RemainderUnique(q, Quotient(a, b), r, Mul(a, b));
    }
  }

  // ---------------------------------------------------------------------
  // The loops
  // ---------------------------------------------------------------------

  method GfMul(a0: Element, b0: Element) returns (product: Element)
    ensures product == Mul(a0, b0)
  {
    hide *;
    var a, b := a0, b0;
    product := 0;
    AddZero(Mul(a0, b0));
    while b != 0
      invariant Add(product, Mul(a, b)) == Mul(a0, b0)
      decreases b
    {
      MulStep(a, b);
      AddAssociates(product, Bit(b, a), Mul(XTime(a), b >> 1));
      LoopStep(product, a, b);
      ghost var p, x := Add(product, Bit(b, a)), XTime(a);
      if b & 1 != 0 {
        product := product ^ a;
      }
      assert product == p;
      var carry := a & 0x80;
      a := a << 1;
      if carry != 0 {
        a := a ^ 0x1b;
      }
      assert a == x;
      b := b >> 1;
    }
    MulZero(a);
    AddZero(product);
  }

  /** The branches of one round of the multiplication loop. */
  lemma LoopStep(p: Element, a: Element, b: Element)
    ensures Add(p, Bit(b, a)) == if b & 1 != 0 then p ^ a else p
    ensures XTime(a) == if a & 0x80 != 0 then (a << 1) ^ 0x1b else a << 1
    ensures b != 0 ==> b >> 1 < b
  {
    AddZero(p);
  }

  /** A power that is not positive leaves the loop untouched and yields 1. */
  method GfPow(a0: Element, power0: int) returns (result: Element)
    ensures result == if power0 > 0 then Pow(a0, power0) else 1
  {
    var a, power := a0, power0;
    result := 1;
    MulOne(if power0 > 0 then Pow(a0, power0) else 1);
    while power > 0
      invariant power <= 0 && power0 > 0 ==> power == 0
      invariant power0 <= 0 ==> power == power0
      invariant power0 > 0 ==> power >= 0 && Mul(result, Pow(a, power)) == Pow(a0, power0)
      invariant power0 <= 0 ==> result == 1
      decreases power
    {
      ghost var r, x, n := result, a, power;
      if power % 2 != 0 {
        result := GfMul(result, a);
      }
      a := GfMul(a, a);
      power := power / 2;
      assert Mul(result, Pow(a, power)) == Mul(r, Pow(x, n)) by {
        hide Mul, Add;
        PowTwice(x, power);
        if n % 2 != 0 {
          MulAssociates(r, x, Pow(x, n - 1));
          PowAdd(x, n - 1, 1);
          MulCommutes(x, Pow(x, n - 1));
        }
      }
    }
    MulOne(result);
  }

  datatype DivResult = Divided(value: Element) | DuplicateShare

  /** Refuses a zero divisor, which is how two equal share indexes show up. */
  method GfDiv(a: Element, b: Element) returns (r: DivResult)
    ensures r.DuplicateShare? <==> b == 0
    ensures r.Divided? ==> r.value == Div(a, b) && Mul(r.value, b) == a
  {
    if b == 0 {
      return DuplicateShare;
    }
    var inverse := GfPow(b, 254);
    var q := GfMul(a, inverse);
    DivTimesDivisor(a, b);
    return Divided(q);
  }
}
