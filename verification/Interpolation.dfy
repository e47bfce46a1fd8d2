/** Polynomials over the byte field: Horner evaluation, division by a linear
    factor, Lagrange interpolation at 0 as the share combiner computes it, and
    existence and uniqueness of the interpolating polynomial. */
module Interpolation {
  import opened Gf256
  import opened Sequences

  /** Value of c[0] + c[1] x + c[2] x^2 + ..., by Horner's rule. */
  function Eval(c: seq<Element>, x: Element): Element {
    if c == [] then 0 else Add(Mul(Eval(c[1..], x), x), c[0])
  }

  method EvalPolynomial(coefficients: seq<Element>, x: Element) returns (result: Element)
    ensures result == Eval(coefficients, x)
  {
    result := 0;
    var i := |coefficients| - 1;
    while i >= 0
      invariant -1 <= i < |coefficients|
      invariant result == Eval(coefficients[i + 1..], x)
    {
      var product := GfMul(result, x);
      result := product ^ coefficients[i];
      assert coefficients[i..][1..] == coefficients[i + 1..];
      i := i - 1;
    }
  }

  function Evals(c: seq<Element>, xs: seq<Element>): seq<Element> {
    seq(|xs|, i requires 0 <= i < |xs| => Eval(c, xs[i]))
  }

  function Repeat(v: Element, n: nat): seq<Element> {
    seq(n, i => v)
  }

  lemma EvalAtZero(c: seq<Element>)
    ensures Eval(c, 0) == if c == [] then 0 else c[0]
  {
    if c != [] {
      MulZero(Eval(c[1..], 0));
      AddZero(c[0]);
    }
  }

  lemma EvalConstant(c: seq<Element>, x: Element)
    requires |c| == 1
    ensures Eval(c, x) == c[0]
  {
    hide Add, Mul;
    assert c[1..] == [];
    MulZero(x);
    AddZero(c[0]);
  }

  // ---------------------------------------------------------------------
  // Division by x + z
  // ---------------------------------------------------------------------

  /** The quotient of c by x + z. */
  function DivideOut(c: seq<Element>, z: Element): (q: seq<Element>)
    ensures |q| == if c == [] then 0 else |c| - 1
  {
    if |c| <= 1 then [] else [Eval(c[1..], z)] + DivideOut(c[1..], z)
  }

  /** c(x) == c(z) + q(x) (x + z). */
  lemma {:induction false} Factor(c: seq<Element>, z: Element, x: Element)
    requires c != []
    ensures Eval(c, x) == Add(Eval(c, z), Mul(Eval(DivideOut(c, z), x), Add(x, z)))
  {
    hide Add, Mul;
    var d := Add(x, z);
    if |c| == 1 {
      EvalConstant(c, x);
      EvalConstant(c, z);
      MulZero(d);
      AddZero(c[0]);
    } else {
      var t, q := c[1..], DivideOut(c, z);
      var tz, r := Eval(t, z), Eval(DivideOut(t, z), x);
      assert q[1..] == DivideOut(t, z);
      Factor(t, z, x);
      FactorStep(tz, r, x, z, c[0]);
    }
  }

  /** The ring identity behind one step of the division. */
  lemma FactorStep(tz: Element, r: Element, x: Element, z: Element, c0: Element)
    ensures Add(Mul(Add(tz, Mul(r, Add(x, z))), x), c0)
         == Add(Add(Mul(tz, z), c0), Mul(Add(Mul(r, x), tz), Add(x, z)))
  {
    hide *;
    var d := Add(x, z);
    var rdx := Mul(Mul(r, x), d);
    MulAddLeft(tz, Mul(r, d), x);
    assert Mul(Mul(r, d), x) == rdx by {
      MulAssociates(r, d, x);
      MulCommutes(d, x);
      MulAssociates(r, x, d);
    }
    MulAddLeft(Mul(r, x), tz, d);
    MulAddRight(tz, x, z);
    var a, b := Mul(tz, x), Mul(tz, z);
    // (a + rdx) + c0 == (b + c0) + (rdx + (a + b))
    AddCommutes(a, b);
    AddCommutes(rdx, Add(a, b));
    AddAssociates(b, a, rdx);
    AddAssociates(Add(b, c0), b, Add(a, rdx));
    AddCommutes(b, c0);
    AddAssociates(c0, b, b);
    AddCancels(b, b);
    AddZero(c0);
    AddCommutes(c0, Add(a, rdx));
  }

  // ---------------------------------------------------------------------
  // Lagrange interpolation at 0
  // ---------------------------------------------------------------------

  /** The factor node y contributes to the basis value of node x. */
  function Weight(x: Element, y: Element): Element {
    if x == y then 1 else Div(y, Add(x, y))
  }

  /** The value at 0 of the Lagrange basis polynomial of node x. */
  function Basis(nodes: seq<Element>, x: Element): Element {
    if nodes == [] then 1
    else
      var n := |nodes| - 1;
      Mul(Basis(nodes[..n], x), Weight(x, nodes[n]))
  }

  /** The basis values of `xs`, weighted with `vs` and added up. */
  function Combine(nodes: seq<Element>, xs: seq<Element>, vs: seq<Element>): Element
    requires |xs| == |vs|
    decreases |xs|
  {
    if xs == [] then 0
    else
      var n := |xs| - 1;
      Add(Combine(nodes, xs[..n], vs[..n]), Mul(vs[n], Basis(nodes, xs[n])))
  }

  lemma {:induction false} BasisAppend(p: seq<Element>, q: seq<Element>, x: Element)
    ensures Basis(p + q, x) == Mul(Basis(p, x), Basis(q, x))
    decreases |q|
  {
    hide Add, Mul, Weight;
    if q == [] {
      assert p + q == p;
      MulOne(Basis(p, x));
    } else {
      var n := |q| - 1;
      assert (p + q)[..|p + q| - 1] == p + q[..n];
      BasisAppend(p, q[..n], x);
      MulAssociates(Basis(p, x), Basis(q[..n], x), Weight(x, q[n]));
    }
  }

  /** A node may be taken out of the product, wherever it stands. */
  lemma BasisWithout(p: seq<Element>, m: Element, q: seq<Element>, x: Element)
    ensures Basis(p + [m] + q, x) == Mul(Basis(p + q, x), Weight(x, m))
  {
    hide Add, Mul, Weight;
    var bp, bq, w := Basis(p, x), Basis(q, x), Weight(x, m);
    BasisAppend(p + [m], q, x);
    BasisAppend(p, [m], x);
    BasisAppend(p, q, x);
    assert Basis([m], x) == w by {
      assert [m][..0] == [];
      MulOne(w);
    }
    MulAssociates(bp, w, bq);
    MulCommutes(w, bq);
    MulAssociates(bp, bq, w);
  }

  lemma {:induction false} CombineAppend(nodes: seq<Element>, xs: seq<Element>, ys: seq<Element>, us: seq<Element>,
                                         vs: seq<Element>)
    requires |xs| == |us| && |ys| == |vs|
    ensures Combine(nodes, xs + ys, us + vs) == Add(Combine(nodes, xs, us), Combine(nodes, ys, vs))
    decreases |ys|
  {
    hide Add, Mul, Basis;
    if ys == [] {
      assert xs + ys == xs && us + vs == us;
      AddZero(Combine(nodes, xs, us));
    } else {
      var n := |ys| - 1;
      var last := Mul(vs[n], Basis(nodes, ys[n]));
      assert (xs + ys)[..|xs + ys| - 1] == xs + ys[..n];
      assert (us + vs)[..|us + vs| - 1] == us + vs[..n];
      CombineAppend(nodes, xs, ys[..n], us, vs[..n]);
      AddAssociates(Combine(nodes, xs, us), Combine(nodes, ys[..n], vs[..n]), last);
    }
  }

  /** Combining is linear in the values. */
  lemma {:induction false} CombineLinear(nodes: seq<Element>, xs: seq<Element>, k: Element, us: seq<Element>,
                                         vs: seq<Element>, ws: seq<Element>)
    requires |xs| == |us| == |vs| == |ws|
    requires forall i | 0 <= i < |xs| :: ws[i] == Add(Mul(k, us[i]), vs[i])
    ensures Combine(nodes, xs, ws) == Add(Mul(k, Combine(nodes, xs, us)), Combine(nodes, xs, vs))
    decreases |xs|
  {
    hide Add, Mul, Basis;
    if xs == [] {
      MulZero(k);
      AddZero(0);
    } else {
      var n := |xs| - 1;
      var b := Basis(nodes, xs[n]);
      var cu, cv := Combine(nodes, xs[..n], us[..n]), Combine(nodes, xs[..n], vs[..n]);
      CombineLinear(nodes, xs[..n], k, us[..n], vs[..n], ws[..n]);
      MulAddLeft(Mul(k, us[n]), vs[n], b);
      MulAssociates(k, us[n], b);
      MulAddRight(k, cu, Mul(us[n], b));
      AddSwap(Mul(k, cu), cv, Mul(k, Mul(us[n], b)), Mul(vs[n], b));
    }
  }

  lemma {:induction false} CombineZero(nodes: seq<Element>, xs: seq<Element>, vs: seq<Element>)
    requires |xs| == |vs| && forall i | 0 <= i < |vs| :: vs[i] == 0
    ensures Combine(nodes, xs, vs) == 0
    decreases |xs|
  {
    hide Add, Mul, Basis;
    if xs != [] {
      var n := |xs| - 1;
      CombineZero(nodes, xs[..n], vs[..n]);
      MulZero(Basis(nodes, xs[n]));
      AddZero(0);
    }
  }

  /** Values that vanish at the node m: m drops out and a factor m remains. */
  lemma {:induction false} CombineScaled(p: seq<Element>, m: Element, q: seq<Element>, xs: seq<Element>,
                                         us: seq<Element>, vs: seq<Element>)
    requires |xs| == |us| == |vs|
    requires forall i | 0 <= i < |xs| :: xs[i] != m && vs[i] == Mul(us[i], Add(xs[i], m))
    ensures Combine(p + [m] + q, xs, vs) == Mul(m, Combine(p + q, xs, us))
    decreases |xs|
  {
    hide Add, Mul, Basis, Weight;
    if xs == [] {
      MulZero(m);
    } else {
      var n := |xs| - 1;
      CombineScaled(p, m, q, xs[..n], us[..n], vs[..n]);
      ScaledTerm(p, m, q, xs[n], us[n]);
      MulAddRight(m, Combine(p + q, xs[..n], us[..n]), Mul(us[n], Basis(p + q, xs[n])));
    }
  }

  lemma ScaledTerm(p: seq<Element>, m: Element, q: seq<Element>, x: Element, u: Element)
    requires x != m
    ensures Mul(Mul(u, Add(x, m)), Basis(p + [m] + q, x)) == Mul(m, Mul(u, Basis(p + q, x)))
  {
    var d, b := Add(x, m), Basis(p + q, x);
    var w := Div(m, d);
    AddCancels(x, m);
    DivTimesDivisor(m, d);
    BasisWithout(p, m, q, x);
    assert Weight(x, m) == w;
    hide *;
    MulAssociates(u, d, Mul(b, w));
    MulCommutes(b, w);
    MulAssociates(d, w, b);
    MulCommutes(d, w);
    MulAssociates(u, m, b);
    MulCommutes(u, m);
    MulAssociates(m, u, b);
  }

  /** us[i] (xs[i] + m), pointwise. */
  predicate Vanishes(xs: seq<Element>, m: Element, us: seq<Element>, vs: seq<Element>) {
    |xs| == |us| == |vs| && forall i | 0 <= i < |xs| :: xs[i] != m && vs[i] == Mul(us[i], Add(xs[i], m))
  }

  /** Taking one node out of the whole combination. */
  lemma CombineWithout(p: seq<Element>, m: Element, q: seq<Element>, up: seq<Element>, uq: seq<Element>,
                       vp: seq<Element>, vq: seq<Element>)
    requires Vanishes(p, m, up, vp) && Vanishes(q, m, uq, vq)
    ensures Combine(p + [m] + q, p + [m] + q, vp + [0] + vq) == Mul(m, Combine(p + q, p + q, up + uq))
  {
    hide Add, Mul, Basis;
    var nodes := p + [m] + q;
    CombineScaled(p, m, q, p, up, vp);
    CombineScaled(p, m, q, q, uq, vq);
    CombineAppend(nodes, p + [m], q, vp + [0], vq);
    CombineAppend(nodes, p, [m], vp, [0]);
    CombineAppend(p + q, p, q, up, uq);
    assert Combine(nodes, [m], [0]) == 0 by {
      MulZero(Basis(nodes, m));
      assert [m][..0] == [] && [0 as Element][..0] == [];
      AddZero(0);
    }
    AddZero(Combine(nodes, p, vp));
    MulAddRight(m, Combine(p + q, p, up), Combine(p + q, q, uq));
  }

  function Drop(s: seq<Element>, k: nat): seq<Element>
    requires k < |s|
  {
    s[..k] + s[k + 1..]
  }

  lemma VanishesAround(xs: seq<Element>, k: nat, us: seq<Element>, vs: seq<Element>)
    requires Distinct(xs) && k < |xs| == |us| == |vs|
    requires forall i | 0 <= i < |xs| :: vs[i] == Mul(us[i], Add(xs[i], xs[k]))
    ensures Vanishes(xs[..k], xs[k], us[..k], vs[..k])
    ensures Vanishes(xs[k + 1..], xs[k], us[k + 1..], vs[k + 1..])
  {
    hide Add, Mul;
  }

  /** The same, by position. */
  lemma CombineDrop(xs: seq<Element>, k: nat, us: seq<Element>, vs: seq<Element>)
    requires Distinct(xs) && k < |xs| == |us| == |vs|
    requires forall i | 0 <= i < |xs| :: vs[i] == Mul(us[i], Add(xs[i], xs[k]))
    ensures Combine(xs, xs, vs) == Mul(xs[k], Combine(Drop(xs, k), Drop(xs, k), Drop(us, k)))
  {
    hide Add, Mul, Combine, Vanishes, Distinct;
    var m := xs[k];
    assert vs[k] == 0 by {
      AddCancels(m, m);
      MulZero(us[k]);
    }
    VanishesAround(xs, k, us, vs);
    assert xs == xs[..k] + [m] + xs[k + 1..];
    assert vs == vs[..k] + [0] + vs[k + 1..];
    CombineWithout(xs[..k], m, xs[k + 1..], us[..k], us[k + 1..], vs[..k], vs[k + 1..]);
  }

  /** The basis values add up to 1. */
  lemma {:induction false} BasisUnity(xs: seq<Element>)
    requires xs != [] && Distinct(xs)
    ensures Combine(xs, xs, Repeat(1, |xs|)) == 1
    decreases |xs|
  {
    hide Add, Mul, Basis;
    var n, ones := |xs| - 1, Repeat(1, |xs|);
    if n == 0 {
      BasisSingle(xs[0]);
      assert xs == [xs[0]];
      MulOne(1);
      AddZero(1);
    } else {
      var y, z := xs[0], xs[n];
      var dy := seq(|xs|, i requires 0 <= i < |xs| => Mul(ones[i], Add(xs[i], y)));
      var dz := seq(|xs|, i requires 0 <= i < |xs| => Mul(ones[i], Add(xs[i], z)));
      assert Combine(xs, xs, dy) == y by {
        BasisUnity(Drop(xs, 0));
        CombineDrop(xs, 0, ones, dy);
        assert Drop(ones, 0) == Repeat(1, n);
        MulOne(y);
      }
      assert Combine(xs, xs, dz) == z by {
        BasisUnity(Drop(xs, n));
        CombineDrop(xs, n, ones, dz);
        assert Drop(ones, n) == Repeat(1, n);
        MulOne(z);
      }
      UnityFromTwo(xs, y, z, ones, dy, dz);
    }
  }

  lemma BasisSingle(x: Element)
    ensures Basis([x], x) == 1
  {
    assert [x][..0] == [];
    MulOne(1);
  }

  lemma ShiftBySum(x: Element, y: Element, z: Element)
    ensures Add(x, z) == Add(Add(y, z), Add(x, y))
  {
    hide *;
    AddCommutes(y, z);
    AddCommutes(x, y);
    AddAssociates(z, y, Add(y, x));
    AddTwice(y, x);
    AddCommutes(z, x);
  }

  /** y == sum of (x_i + y) b_i and z == sum of (x_i + z) b_i leave y + z == (y + z) sum of b_i. */
  lemma UnityFromTwo(xs: seq<Element>, y: Element, z: Element, ones: seq<Element>, dy: seq<Element>, dz: seq<Element>)
    requires y != z && |ones| == |dy| == |dz| == |xs|
    requires forall i | 0 <= i < |xs| :: ones[i] == 1
    requires forall i | 0 <= i < |xs| :: dy[i] == Mul(1, Add(xs[i], y))
    requires forall i | 0 <= i < |xs| :: dz[i] == Mul(1, Add(xs[i], z))
    requires Combine(xs, xs, dy) == y && Combine(xs, xs, dz) == z
    ensures Combine(xs, xs, ones) == 1
  {
    hide Add, Mul, Basis, Combine;
    var d := Add(y, z);
    var u := Combine(xs, xs, ones);
    // d * 1 + (x + y) == x + z, pointwise
    forall i | 0 <= i < |xs| ensures dz[i] == Add(Mul(d, ones[i]), dy[i]) {
      ShiftBySum(xs[i], y, z);
      MulOne(d);
      MulOne(Add(xs[i], y));
      MulOne(Add(xs[i], z));
    }
    CombineLinear(xs, xs, d, ones, dy, dz);
    // z == d u + y, so d u == d
    assert Mul(d, u) == d by {
      AddCommutes(Mul(d, u), y);
      AddTwice(y, Mul(d, u));
    }
    AddCancels(y, z);
    CancelFactor(d, u);
  }

  lemma CancelFactor(d: Element, u: Element)
    requires d != 0 && Mul(d, u) == d
    ensures u == 1
  {
    hide *;
    MulAddRight(d, u, 1);
    MulOne(d);
    AddCancels(d, d);
    NoZeroDivisors(d, Add(u, 1));
    AddCancels(u, 1);
  }

  /** Lagrange interpolation at 0 recovers the constant coefficient of every
      polynomial that has no more coefficients than there are nodes. */
  lemma {:induction false} CombineRecovers(c: seq<Element>, xs: seq<Element>)
    requires Distinct(xs) && |c| <= |xs|
    ensures Combine(xs, xs, Evals(c, xs)) == Eval(c, 0)
    decreases |xs|
  {
    hide Add, Mul, Basis, Combine, DivideOut;
    var vs := Evals(c, xs);
    if c == [] {
      assert Eval([], 0) == 0 && forall x :: Eval([], x) == 0;
      CombineZero(xs, xs, vs);
    } else {
      var n := |xs| - 1;
      var z := xs[n];
      var k, q, ones := Eval(c, z), DivideOut(c, z), Repeat(1, |xs|);
      var rest := Drop(xs, n);
      var us := Evals(q, xs);
      var ws := seq(|xs|, i requires 0 <= i < |xs| => Mul(us[i], Add(xs[i], z)));
      forall i | 0 <= i < |xs| ensures vs[i] == Add(Mul(k, ones[i]), ws[i]) {
        Factor(c, z, xs[i]);
        MulOne(k);
      }
      CombineLinear(xs, xs, k, ones, ws, vs);
      BasisUnity(xs);
      MulOne(k);
      CombineDrop(xs, n, us, ws);
      assert Drop(us, n) == Evals(q, rest);
      CombineRecovers(q, rest);
      Factor(c, z, 0);
      AddZero(z);
      MulCommutes(z, Eval(q, 0));
    }
  }


  // ---------------------------------------------------------------------
  // Through n points with distinct nodes runs exactly one polynomial with n
  // coefficients
  // ---------------------------------------------------------------------

  predicate AllZero(c: seq<Element>) {
    forall i | 0 <= i < |c| :: c[i] == 0
  }

  lemma {:induction false} EvalAllZero(c: seq<Element>, x: Element)
    requires AllZero(c)
    ensures Eval(c, x) == 0
  {
    hide Add, Mul;
    if c != [] {
      EvalAllZero(c[1..], x);
      MulZero(x);
      AddZero(0);
    }
  }

  lemma {:induction false} ZeroQuotient(c: seq<Element>, z: Element)
    requires c != [] && AllZero(DivideOut(c, z))
    ensures AllZero(c[1..])
  {
    if |c| > 1 {
      var t, q := c[1..], DivideOut(c, z);
      assert q[1..] == DivideOut(t, z);
      ZeroQuotient(t, z);
      assert q[0] == Eval(t, z);
      hide Add, Mul;
      EvalAllZero(t[1..], z);
      MulZero(z);
      AddZero(t[0]);
    }
  }

  /** A polynomial with as many distinct roots as coefficients is zero. */
  lemma {:induction false} TooManyRoots(c: seq<Element>, xs: seq<Element>)
    requires Distinct(xs) && |c| <= |xs|
    requires forall i | 0 <= i < |xs| :: Eval(c, xs[i]) == 0
    ensures AllZero(c)
    decreases |xs|
  {
    if c != [] {
      hide Add, Mul, DivideOut;
      var n := |xs| - 1;
      var z := xs[n];
      var q := DivideOut(c, z);
      forall i | 0 <= i < n ensures Eval(q, xs[..n][i]) == 0 {
        Factor(c, z, xs[i]);
        AddZero(Mul(Eval(q, xs[i]), Add(xs[i], z)));
        NoZeroDivisors(Eval(q, xs[i]), Add(xs[i], z));
        AddCancels(xs[i], z);
      }
      TooManyRoots(q, xs[..n]);
      ZeroQuotient(c, z);
      EvalAllZero(c[1..], z);
      MulZero(z);
      AddZero(c[0]);
    }
  }

  /** a + k b, coefficient by coefficient. */
  function PlusTimes(a: seq<Element>, k: Element, b: seq<Element>): (c: seq<Element>)
    requires |a| == |b|
    ensures |c| == |a|
  {
    if a == [] then [] else [Add(a[0], Mul(k, b[0]))] + PlusTimes(a[1..], k, b[1..])
  }

  lemma {:induction false} EvalPlusTimes(a: seq<Element>, k: Element, b: seq<Element>, x: Element)
    requires |a| == |b|
    ensures Eval(PlusTimes(a, k, b), x) == Add(Eval(a, x), Mul(k, Eval(b, x)))
  {
    hide Add, Mul;
    if a == [] {
      MulZero(k);
      AddZero(0);
    } else {
      var p, q := Eval(a[1..], x), Eval(b[1..], x);
      assert PlusTimes(a, k, b)[1..] == PlusTimes(a[1..], k, b[1..]);
      EvalPlusTimes(a[1..], k, b[1..], x);
      MulAddLeft(p, Mul(k, q), x);
      MulAssociates(k, q, x);
      MulAddRight(k, Mul(q, x), b[0]);
      AddSwap(Mul(p, x), Mul(k, Mul(q, x)), a[0], Mul(k, b[0]));
    }
  }

  lemma {:induction false} PlusTimesZero(a: seq<Element>, b: seq<Element>)
    requires |a| == |b| && AllZero(PlusTimes(a, 1, b))
    ensures a == b
  {
    if a != [] {
      var s := PlusTimes(a, 1, b);
      assert s[1..] == PlusTimes(a[1..], 1, b[1..]);
      PlusTimesZero(a[1..], b[1..]);
      assert s[0] == Add(a[0], Mul(1, b[0]));
      MulOne(b[0]);
      AddCancels(a[0], b[0]);
    }
  }

  lemma InterpolationUnique(a: seq<Element>, b: seq<Element>, xs: seq<Element>)
    requires Distinct(xs) && |a| == |b| <= |xs|
    requires Evals(a, xs) == Evals(b, xs)
    ensures a == b
  {
    hide Add, Mul;
    forall i | 0 <= i < |xs| ensures Eval(PlusTimes(a, 1, b), xs[i]) == 0 {
      EvalPlusTimes(a, 1, b, xs[i]);
      MulOne(Eval(b, xs[i]));
      assert Evals(a, xs)[i] == Evals(b, xs)[i];
      AddCancels(Eval(a, xs[i]), Eval(b, xs[i]));
    }
    TooManyRoots(PlusTimes(a, 1, b), xs);
    PlusTimesZero(a, b);
  }

  /** The product of x + xs[i] over all nodes. */
  function NodePolynomial(xs: seq<Element>): (c: seq<Element>)
    ensures |c| == |xs| + 1
  {
    if xs == [] then [1]
    else
      var n := |xs| - 1;
      var c := NodePolynomial(xs[..n]);
      PlusTimes([0] + c, xs[n], c + [0])
  }

  lemma {:induction false} EvalPadded(c: seq<Element>, x: Element)
    ensures Eval(c + [0], x) == Eval(c, x)
    ensures Eval([0] + c, x) == Mul(Eval(c, x), x)
  {
    hide Add, Mul;
    assert ([0] + c)[1..] == c;
    AddZero(Mul(Eval(c, x), x));
    if c == [] {
      assert c + [0] == [0];
      EvalConstant([0], x);
    } else {
      assert (c + [0])[1..] == c[1..] + [0];
      EvalPadded(c[1..], x);
    }
  }

  lemma {:induction false} NodePolynomialRoots(xs: seq<Element>, x: Element)
    ensures Eval(NodePolynomial(xs), x) == 0 <==> x in xs
    decreases |xs|
  {
    hide Add, Mul;
    if xs == [] {
      EvalConstant([1], x);
    } else {
      var n := |xs| - 1;
      var z, c := xs[n], NodePolynomial(xs[..n]);
      var v := Eval(c, x);
      NodePolynomialRoots(xs[..n], x);
      EvalPlusTimes([0] + c, z, c + [0], x);
      EvalPadded(c, x);
      MulCommutes(z, v);
      MulAddRight(v, x, z);
      assert Eval(NodePolynomial(xs), x) == Mul(v, Add(x, z));
      AddCancels(x, z);
      MulZero(v);
      MulZero(Add(x, z));
      if Mul(v, Add(x, z)) == 0 {
        NoZeroDivisors(v, Add(x, z));
      }
      assert xs == xs[..n] + [z];
    }
  }

  /** Newton's step: one more node z with value v, one more coefficient. */
  function Extend(xs: seq<Element>, c: seq<Element>, z: Element, v: Element): (d: seq<Element>)
    requires |c| == |xs|
    ensures |d| == |xs| + 1
  {
    var node := NodePolynomial(xs);
    PlusTimes(c + [0], Div(Add(Eval(c, z), v), Eval(node, z)), node)
  }

  function Interpolate(xs: seq<Element>, vs: seq<Element>): (c: seq<Element>)
    requires |xs| == |vs|
    ensures |c| == |xs|
    decreases |xs|
  {
    if xs == [] then []
    else
      var n := |xs| - 1;
      Extend(xs[..n], Interpolate(xs[..n], vs[..n]), xs[n], vs[n])
  }

  /** The old nodes keep their values, the new one gets its own. */
  lemma ExtendHits(xs: seq<Element>, c: seq<Element>, z: Element, v: Element, x: Element)
    requires |c| == |xs| && z !in xs && (x in xs || x == z)
    ensures Eval(Extend(xs, c, z, v), x) == if x == z then v else Eval(c, x)
  {
    hide Add, Mul, Div, Eval;
    var node, e := NodePolynomial(xs), Add(Eval(c, z), v);
    var k := Div(e, Eval(node, z));
    EvalPlusTimes(c + [0], k, node, x);
    EvalPadded(c, x);
    NodePolynomialRoots(xs, x);
    if x == z {
      DivTimesDivisor(e, Eval(node, z));
      AddTwice(Eval(c, z), v);
    } else {
      MulZero(k);
      AddZero(Eval(c, x));
    }
  }

  lemma {:induction false} InterpolateHits(xs: seq<Element>, vs: seq<Element>)
    requires |xs| == |vs| && Distinct(xs)
    ensures Evals(Interpolate(xs, vs), xs) == vs
    decreases |xs|
  {
    if xs != [] {
      hide Eval, Extend;
      var n := |xs| - 1;
      var c := Interpolate(xs[..n], vs[..n]);
      InterpolateHits(xs[..n], vs[..n]);
      var d := Extend(xs[..n], c, xs[n], vs[n]);
      forall i | 0 <= i < |xs| ensures Eval(d, xs[i]) == vs[i] {
        ExtendHits(xs[..n], c, xs[n], vs[n], xs[i]);
        if i < n {
          assert Evals(c, xs[..n])[i] == vs[..n][i];
        }
      }
      assert Evals(d, xs) == vs;
    }
  }

  // ---------------------------------------------------------------------
  // Evaluation as a sum of powers
  // ---------------------------------------------------------------------

  /** Each coefficient counts with the power of its position. */
  lemma {:induction false} EvalAppend(c: seq<Element>, d: Element, x: Element)
    ensures Eval([], x) == 0
    ensures Eval(c + [d], x) == Add(Eval(c, x), Mul(d, Pow(x, |c|)))
  {
    hide Add, Mul;
    if c == [] {
      assert c + [d] == [d];
      EvalConstant([d], x);
      MulOne(d);
      AddZero(d);
      AddCommutes(d, 0);
    } else {
      EvalAppend(c[1..], d, x);
      assert (c + [d])[1..] == c[1..] + [d] && (c + [d])[0] == c[0];
      var e, t := Eval(c[1..], x), Mul(d, Pow(x, |c| - 1));
      MulAddLeft(e, t, x);
      MulAssociates(d, Pow(x, |c| - 1), x);
      AddAssociates(Mul(e, x), Mul(t, x), c[0]);
      AddCommutes(Mul(t, x), c[0]);
      AddAssociates(Mul(e, x), c[0], Mul(t, x));
    }
  }
}
