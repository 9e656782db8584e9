/** Polynomials as used in secret sharing. Field elements are modelled by the real
    numbers, whose order serves only to tell points apart. */
module Polynomials {

  /** The coefficients, lowest power first. */
  type Poly = seq<real>

  function Eval(p: Poly, x: real): real {
    if p == [] then 0.0 else p[0] + x * Eval(p[1..], x)
  }

  function Add(p: Poly, q: Poly): (r: Poly)
    ensures |r| == if |p| >= |q| then |p| else |q|
  {
    if p == [] then q
    else if q == [] then p
    else [p[0] + q[0]] + Add(p[1..], q[1..])
  }

  function Scale(p: Poly, c: real): (r: Poly)
    ensures |r| == |p|
  {
    seq(|p|, i requires 0 <= i < |p| => c * p[i])
  }

  lemma {:induction false} EvalAdd(p: Poly, q: Poly, x: real)
    ensures Eval(Add(p, q), x) == Eval(p, x) + Eval(q, x)
  {
    if p != [] && q != [] {
      EvalAdd(p[1..], q[1..], x);
      assert Add(p, q)[1..] == Add(p[1..], q[1..]);
      Distribute(x, Eval(p[1..], x), Eval(q[1..], x));
    }
  }

  lemma Distribute(x: real, a: real, b: real)
    ensures x * (a + b) == x * a + x * b
    ensures (a + b) * x == a * x + b * x
    ensures x * (a - b) == x * a - x * b
    ensures (a - b) * x == a * x - b * x
  {
  }

  lemma Reorder(a: real, b: real, c: real)
    ensures a * (b * c) == b * (a * c)
    ensures (a * b) * c == a * (b * c)
  {
  }

  lemma ScaleTail(p: Poly, c: real)
    requires p != []
    ensures Scale(p, c)[1..] == Scale(p[1..], c)
  {
    forall i | 0 <= i < |p| - 1 ensures Scale(p, c)[1..][i] == Scale(p[1..], c)[i] {
      assert p[1..][i] == p[i + 1];
    }
  }

  lemma {:induction false} EvalScale(p: Poly, c: real, x: real)
    ensures Eval(Scale(p, c), x) == c * Eval(p, x)
  {
    if p != [] {
      ScaleTail(p, c);
      EvalScale(p[1..], c, x);
      ScaleStep(c, p[0], x, Eval(p[1..], x));
    }
  }

  lemma ScaleStep(c: real, p0: real, x: real, rest: real)
    ensures c * p0 + x * (c * rest) == c * (p0 + x * rest)
  {
    Distribute(c, p0, x * rest);
    Reorder(c, x, rest);
  }

  /** `p` times the variable. */
  lemma EvalShift(p: Poly, x: real)
    ensures Eval([0.0] + p, x) == x * Eval(p, x)
  {
    assert ([0.0] + p)[1..] == p;
  }

  // ----- A polynomial has fewer roots than coefficients -----

  /** The quotient of `p` by the linear polynomial with root `a`. */
  function Quotient(p: Poly, a: real): (q: Poly)
    ensures |p| > 0 ==> |q| == |p| - 1
  {
    if |p| <= 1 then [] else [Eval(p[1..], a)] + Quotient(p[1..], a)
  }

  lemma {:induction false} Division(p: Poly, a: real, x: real)
    ensures Eval(p, x) == (x - a) * Eval(Quotient(p, a), x) + Eval(p, a)
  {
    if |p| == 1 {
      assert p[1..] == [];
    } else if |p| > 1 {
      var rest := p[1..];
      Division(rest, a, x);
      var q, ra, rx := Eval(Quotient(rest, a), x), Eval(rest, a), Eval(rest, x);
      assert Quotient(p, a)[1..] == Quotient(rest, a);
      assert Eval(Quotient(p, a), x) == ra + x * q;
      assert rx == (x - a) * q + ra;
      DivisionStep(p[0], x, a, q, ra, rx);
    }
  }

  lemma DivisionStep(p0: real, x: real, a: real, q: real, ra: real, rx: real)
    requires rx == (x - a) * q + ra
    ensures p0 + x * rx == (x - a) * (ra + x * q) + (p0 + a * ra)
  {
    assert x * rx == x * ((x - a) * q) + x * ra;
    assert (x - a) * (ra + x * q) == (x - a) * ra + (x - a) * (x * q);
    Reorder(x, x - a, q);
  }

  ghost predicate Distinct(xs: seq<real>) {
    forall i, j :: 0 <= i < j < |xs| ==> xs[i] != xs[j]
  }

  lemma {:induction false} TooManyRoots(p: Poly, roots: seq<real>, x: real)
    requires |p| <= |roots| && Distinct(roots)
    requires forall i :: 0 <= i < |roots| ==> Eval(p, roots[i]) == 0.0
    ensures Eval(p, x) == 0.0
    decreases |p|
  {
    if p != [] {
      var a, rest := roots[0], roots[1..];
      var q := Quotient(p, a);
      forall i | 0 <= i < |rest| ensures Eval(q, rest[i]) == 0.0 {
        Division(p, a, rest[i]);
        assert rest[i] == roots[i + 1];
      }
      TooManyRoots(q, rest, x);
      Division(p, a, x);
    }
  }

  /** Two polynomials that agree in as many points as they have coefficients are equal. */
  lemma AgreeEverywhere(p: Poly, q: Poly, xs: seq<real>, x: real)
    requires |p| <= |xs| && |q| <= |xs| && Distinct(xs)
    requires forall i :: 0 <= i < |xs| ==> Eval(p, xs[i]) == Eval(q, xs[i])
    ensures Eval(p, x) == Eval(q, x)
  {
    var d := Add(p, Scale(q, -1.0));
    forall y ensures Eval(d, y) == Eval(p, y) - Eval(q, y) {
      EvalAdd(p, Scale(q, -1.0), y);
      EvalScale(q, -1.0, y);
    }
    TooManyRoots(d, xs, x);
  }

  /** The points `1` to `n`. */
  function FirstPoints(n: nat): (xs: seq<real>)
    ensures |xs| == n && forall i :: 0 <= i < n ==> xs[i] == (i + 1) as real
  {
    seq(n, i requires 0 <= i < n => (i + 1) as real)
  }

  ghost predicate AgreeAt(p: Poly, q: Poly, k: nat) {
    Eval(p, k as real) == Eval(q, k as real)
  }

  /** A polynomial with roots `1` to `n`, and no more coefficients, has only zeros as
      coefficients. */
  lemma {:induction false} NoCoefficients(p: Poly, n: nat, j: nat)
    requires |p| <= n && j < |p|
    requires forall k: nat :: 0 < k <= n ==> AgreeAt(p, [], k)
    ensures p[j] == 0.0
    decreases |p|
  {
    var roots := FirstPoints(n);
    forall i | 0 <= i < n ensures Eval(p, roots[i]) == 0.0 {
      var k: nat := i + 1;
      assert AgreeAt(p, [], k);
    }
    TooManyRoots(p, roots, 0.0);
    if j > 0 {
      forall k: nat | 0 < k <= n ensures AgreeAt(p[1..], [], k) {
        assert AgreeAt(p, [], k);
        NoZeroDivisors(k as real, Eval(p[1..], k as real));
      }
      NoCoefficients(p[1..], n, j - 1);
    }
  }

  /** Zeros at the end do not matter. */
  lemma {:induction false} EvalPrefix(p: Poly, k: nat, x: real)
    requires k <= |p| && forall j :: k <= j < |p| ==> p[j] == 0.0
    ensures Eval(p, x) == Eval(p[..k], x)
    decreases |p|
  {
    if p != [] {
      if k == 0 {
        assert p[1..][..0] == p[..0];
        EvalPrefix(p[1..], 0, x);
      } else {
        EvalPrefix(p[1..], k - 1, x);
        assert p[..k][1..] == p[1..][..k - 1];
      }
    }
  }

  // ----- Interpolation -----

  datatype Sample = Sample(x: real, y: real)

  function Points(samples: seq<Sample>): (xs: seq<real>)
    ensures |xs| == |samples|
  {
    seq(|samples|, i requires 0 <= i < |samples| => samples[i].x)
  }

  /** Zero at all samples, and nowhere else. */
  function Base(samples: seq<Sample>): (r: Poly)
    ensures |r| == |samples| + 1
  {
    if samples == [] then [1.0]
    else
      var last := |samples| - 1;
      var b := Base(samples[..last]);
      Add([0.0] + b, Scale(b, -samples[last].x))
  }

  /** Corrects the polynomial for one sample after the other. */
  function Interpolate(samples: seq<Sample>): (r: Poly)
    ensures |r| == |samples|
  {
    if samples == [] then []
    else
      var last := |samples| - 1;
      var before := samples[..last];
      var x := samples[last].x;
      var p, b := Interpolate(before), Base(before);
      var at := Eval(b, x);
      Add(p, Scale(b, if at == 0.0 then 0.0 else (samples[last].y - Eval(p, x)) / at))
  }

  lemma {:induction false} BaseStep(samples: seq<Sample>, x: real)
    requires samples != []
    ensures var last := |samples| - 1;
            Eval(Base(samples), x) == (x - samples[last].x) * Eval(Base(samples[..last]), x)
  {
    var last := |samples| - 1;
    var b, a := Base(samples[..last]), samples[last].x;
    EvalAdd([0.0] + b, Scale(b, -a), x);
    EvalShift(b, x);
    EvalScale(b, -a, x);
    Distribute(Eval(b, x), x, a);
  }

  lemma {:induction false} BaseRoots(samples: seq<Sample>, x: real)
    ensures Eval(Base(samples), x) == 0.0 <==> x in Points(samples)
  {
    if samples == [] {
      assert Base(samples)[1..] == [];
    } else {
      var last := |samples| - 1;
      BaseRoots(samples[..last], x);
      BaseStep(samples, x);
      assert Points(samples) == Points(samples[..last]) + [samples[last].x];
      NoZeroDivisors(x - samples[last].x, Eval(Base(samples[..last]), x));
    }
  }

  lemma NoZeroDivisors(a: real, b: real)
    ensures a * b == 0.0 <==> a == 0.0 || b == 0.0
  {
    if a != 0.0 && a * b == 0.0 {
      assert (a * b) / a == b;
    }
  }

  /** The last sample is at a new point, so its correction is well defined. */
  lemma LastIsFresh(samples: seq<Sample>)
    requires Distinct(Points(samples)) && samples != []
    ensures var last := |samples| - 1;
            && Distinct(Points(samples[..last]))
            && samples[last].x !in Points(samples[..last])
            && Eval(Base(samples[..last]), samples[last].x) != 0.0
  {
    hide Eval, Base;
    var last := |samples| - 1;
    assert Points(samples)[..last] == Points(samples[..last]);
    assert Points(samples)[last] == samples[last].x;
    assert samples[last].x !in Points(samples)[..last];
    BaseRoots(samples[..last], samples[last].x);
  }

  lemma InterpolateStep(samples: seq<Sample>, z: real) returns (c: real)
    requires Distinct(Points(samples)) && samples != []
    ensures var last := |samples| - 1;
            var p, b := Interpolate(samples[..last]), Base(samples[..last]);
            && Eval(Interpolate(samples), z) == Eval(p, z) + c * Eval(b, z)
            && (z == samples[last].x ==> Eval(p, z) + c * Eval(b, z) == samples[last].y)
  {
    hide Eval, Add, Scale;
    var last := |samples| - 1;
    var p, b := Interpolate(samples[..last]), Base(samples[..last]);
    LastIsFresh(samples);
    var at := Eval(b, samples[last].x);
    var diff := samples[last].y - Eval(p, samples[last].x);
    c := diff / at;
    EvalAdd(p, Scale(b, c), z);
    EvalScale(b, c, z);
    Cancel(diff, at);
  }

  lemma Cancel(a: real, b: real)
    requires b != 0.0
    ensures (a / b) * b == a
  {
  }

  /** Interpolation hits every sample. */
  lemma {:induction false} InterpolateHits(samples: seq<Sample>, i: nat)
    requires Distinct(Points(samples)) && i < |samples|
    ensures Eval(Interpolate(samples), samples[i].x) == samples[i].y
  {
    hide Eval, Base, Interpolate;
    var last := |samples| - 1;
    var c := InterpolateStep(samples, samples[i].x);
    if i < last {
      LastIsFresh(samples);
      InterpolateHits(samples[..last], i);
      BaseRoots(samples[..last], samples[i].x);
      assert Points(samples[..last])[i] == samples[i].x;
    }
  }

  /** Interpolating samples of a polynomial with no more coefficients than samples gives
      that polynomial. */
  lemma InterpolationIsUnique(p: Poly, samples: seq<Sample>, x: real)
    requires |p| <= |samples| && Distinct(Points(samples))
    requires forall i :: 0 <= i < |samples| ==> samples[i].y == Eval(p, samples[i].x)
    ensures Eval(Interpolate(samples), x) == Eval(p, x)
  {
    var xs := Points(samples);
    forall i | 0 <= i < |xs| ensures Eval(Interpolate(samples), xs[i]) == Eval(p, xs[i]) {
      InterpolateHits(samples, i);
    }
    AgreeEverywhere(Interpolate(samples), p, xs, x);
  }

  // ----- Symmetric bivariate polynomials -----

  /** The coefficients below and on the diagonal. Those above it are the same. */
  datatype Triangle = Triangle(rows: seq<seq<real>>)

  predicate IsTriangle(c: Triangle) {
    |c.rows| > 0 && forall i :: 0 <= i < |c.rows| ==> |c.rows[i]| == i + 1
  }

  type Bivar = c: Triangle | IsTriangle(c) witness Triangle([[0.0]])

  function Degree(c: Bivar): nat {
    |c.rows| - 1
  }

  function Coeff(c: Bivar, i: nat, j: nat): real
    requires i <= Degree(c) && j <= Degree(c)
  {
    if i >= j then c.rows[i][j] else c.rows[j][i]
  }

  function CoeffRow(c: Bivar, i: nat): (r: Poly)
    requires i <= Degree(c)
    ensures |r| == Degree(c) + 1
  {
    seq(Degree(c) + 1, j requires 0 <= j <= Degree(c) => Coeff(c, i, j))
  }

  /** The polynomial in the second variable when the first one is `x`. */
  function Row(c: Bivar, x: real): (r: Poly)
    ensures |r| == Degree(c) + 1
  {
    EvalAll(Matrix(c), x)
  }

  function Matrix(c: Bivar): (m: seq<Poly>)
    ensures |m| == Degree(c) + 1
  {
    seq(Degree(c) + 1, i requires 0 <= i <= Degree(c) => CoeffRow(c, i))
  }

  function EvalAll(m: seq<Poly>, x: real): (r: Poly)
    ensures |r| == |m|
  {
    seq(|m|, i requires 0 <= i < |m| => Eval(m[i], x))
  }

  function Evaluate(c: Bivar, x: real, y: real): real {
    Eval(Row(c, x), y)
  }

  ghost predicate IsMatrix(m: seq<Poly>, width: nat) {
    forall i :: 0 <= i < |m| ==> |m[i]| == width
  }

  ghost function Column(m: seq<Poly>, width: nat, j: nat): Poly
    requires IsMatrix(m, width) && j < width
  {
    seq(|m|, i requires 0 <= i < |m| => m[i][j])
  }

  ghost function Transposed(m: seq<Poly>, width: nat): seq<Poly>
    requires IsMatrix(m, width)
  {
    seq(width, j requires 0 <= j < width => Column(m, width, j))
  }

  /** One more row adds to every column its first coefficient. */
  lemma TransposedStep(m: seq<Poly>, width: nat, y: real)
    requires IsMatrix(m, width) && m != []
    ensures IsMatrix(m[1..], width)
    ensures EvalAll(Transposed(m, width), y) == Add(m[0], Scale(EvalAll(Transposed(m[1..], width), y), y))
  {
    hide Add, Scale;
    var t, t' := EvalAll(Transposed(m, width), y), EvalAll(Transposed(m[1..], width), y);
    var sum := Add(m[0], Scale(t', y));
    AddSameLength(m[0], Scale(t', y));
    forall j | 0 <= j < width ensures t[j] == sum[j] {
      assert Column(m, width, j)[1..] == Column(m[1..], width, j);
      ScaleAt(t', y, j);
    }
  }

  lemma ScaleAt(p: Poly, c: real, j: nat)
    requires j < |p|
    ensures Scale(p, c)[j] == c * p[j]
  {
  }

  /** Rows first or columns first: the value is the same. */
  lemma {:induction false} ExchangeSums(m: seq<Poly>, width: nat, x: real, y: real)
    requires IsMatrix(m, width)
    ensures Eval(EvalAll(m, x), y) == Eval(EvalAll(Transposed(m, width), y), x)
  {
    var t := EvalAll(Transposed(m, width), y);
    if m == [] {
      assert t == Scale(t, 0.0);
      EvalScale(t, 0.0, x);
    } else {
      hide Add, Scale, Transposed;
      TransposedStep(m, width, y);
      ExchangeSums(m[1..], width, x, y);
      var t' := EvalAll(Transposed(m[1..], width), y);
      assert EvalAll(m, x)[1..] == EvalAll(m[1..], x);
      EvalAdd(m[0], Scale(t', y), x);
      EvalScale(t', y, x);
    }
  }

  lemma {:induction false} AddSameLength(p: Poly, q: Poly)
    requires |p| == |q|
    ensures forall i :: 0 <= i < |p| ==> Add(p, q)[i] == p[i] + q[i]
  {
    if p != [] {
      AddSameLength(p[1..], q[1..]);
      forall i | 0 <= i < |p| ensures Add(p, q)[i] == p[i] + q[i] {
        if i > 0 {
          assert Add(p[1..], q[1..])[i - 1] == p[1..][i - 1] + q[1..][i - 1];
        }
      }
    }
  }

  /** The value does not depend on the order of the variables. */
  lemma Symmetric(c: Bivar, x: real, y: real)
    ensures Evaluate(c, x, y) == Evaluate(c, y, x)
  {
    var m, width := Matrix(c), Degree(c) + 1;
    ExchangeSums(m, width, x, y);
    forall j | 0 <= j < width ensures Column(m, width, j) == m[j] {
      assert forall i :: 0 <= i < width ==> Column(m, width, j)[i] == m[j][i];
    }
    assert Transposed(m, width) == m;
  }
}
