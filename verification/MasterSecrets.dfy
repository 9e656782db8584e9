/** The master secret that validators get out of their key shares, and the one behind the public
    key: under the condition that makes the shares fit, and what more it takes. */
module MasterSecrets {
  import opened Options
  import opened Quorums
  import opened Polynomials
  import opened SyncKeyGenSpec
  import opened KeyShares
  import opened KeyShareDegrees

  // ----- Values at zero are sums of values at the first points -----

  function Dot(a: seq<real>, b: seq<real>): real
    requires |a| == |b|
  {
    if a == [] then 0.0
    else
      var last := |a| - 1;
      Dot(a[..last], b[..last]) + a[last] * b[last]
  }

  function Evals(ps: seq<Poly>, x: real): (ys: seq<real>)
    ensures |ys| == |ps|
  {
    seq(|ps|, i requires 0 <= i < |ps| => Eval(ps[i], x))
  }

  function Combine(ws: seq<real>, ps: seq<Poly>): Poly
    requires |ws| == |ps|
  {
    if ws == [] then []
    else
      var last := |ws| - 1;
      Add(Combine(ws[..last], ps[..last]), Scale(ps[last], ws[last]))
  }

  lemma {:induction false} CombineLength(ws: seq<real>, ps: seq<Poly>, len: nat)
    requires |ws| == |ps| && forall i :: 0 <= i < |ps| ==> |ps[i]| <= len
    ensures |Combine(ws, ps)| <= len
    decreases |ws|
  {
    if ws != [] {
      CombineLength(ws[..|ws| - 1], ps[..|ws| - 1], len);
    }
  }

  lemma {:induction false} EvalCombine(ws: seq<real>, ps: seq<Poly>, x: real)
    requires |ws| == |ps|
    ensures Eval(Combine(ws, ps), x) == Dot(ws, Evals(ps, x))
    decreases |ws|
  {
    hide Eval, Add, Scale;
    if ws == [] {
      EvalNothing(x);
    } else {
      var last := |ws| - 1;
      EvalCombine(ws[..last], ps[..last], x);
      EvalAdd(Combine(ws[..last], ps[..last]), Scale(ps[last], ws[last]), x);
      EvalScale(ps[last], ws[last], x);
      assert Evals(ps, x)[..last] == Evals(ps[..last], x);
    }
  }

  /** One at index `j`, and zero elsewhere. */
  ghost predicate IsUnit(e: seq<real>, j: nat) {
    forall i :: 0 <= i < |e| ==> e[i] == if i == j then 1.0 else 0.0
  }

  lemma {:induction false} DotUnit(a: seq<real>, e: seq<real>, j: nat)
    requires |a| == |e| && IsUnit(e, j)
    ensures Dot(a, e) == if j < |a| then a[j] else 0.0
    decreases |a|
  {
    if a != [] {
      var last := |a| - 1;
      DotUnit(a[..last], e[..last], j);
      assert a[last] * 1.0 == a[last] && a[last] * 0.0 == 0.0;
    }
  }

  lemma {:induction false} DotCommutes(a: seq<real>, b: seq<real>)
    requires |a| == |b|
    ensures Dot(a, b) == Dot(b, a)
    decreases |a|
  {
    if a != [] {
      DotCommutes(a[..|a| - 1], b[..|a| - 1]);
    }
  }

  /** The values of `p` at `1` to `m`. */
  function FirstValues(p: Poly, m: nat): (ys: seq<real>)
    ensures |ys| == m
  {
    seq(m, i requires 0 <= i < m => Eval(p, (i + 1) as real))
  }

  /** The polynomial that is one at point `j + 1`, and zero at the others up to `m`. */
  function UnitPoly(m: nat, j: nat): (p: Poly)
    ensures |p| == m
  {
    Interpolate(UnitSamples(m, j))
  }

  function UnitSamples(m: nat, j: nat): (r: seq<Sample>)
    ensures |r| == m
  {
    seq(m, i requires 0 <= i < m => Sample((i + 1) as real, if i == j then 1.0 else 0.0))
  }

  lemma UnitAt(m: nat, j: nat, i: nat)
    requires i < m
    ensures Eval(UnitPoly(m, j), (i + 1) as real) == if i == j then 1.0 else 0.0
  {
    hide Eval, Interpolate;
    assert Distinct(Points(UnitSamples(m, j)));
    InterpolateHits(UnitSamples(m, j), i);
  }

  function Units(m: nat): (ps: seq<Poly>)
    ensures |ps| == m
  {
    seq(m, j requires 0 <= j < m => UnitPoly(m, j))
  }

  /** How the values at `1` to `m` add up to the value at zero. */
  function Weights(m: nat): (ws: seq<real>)
    ensures |ws| == m
  {
    Evals(Units(m), 0.0)
  }

  lemma ValueAtZero(p: Poly, m: nat)
    requires |p| <= m
    ensures Eval(p, 0.0) == Dot(Weights(m), FirstValues(p, m))
  {
    hide Eval, UnitPoly, Combine, Dot;
    var ys := FirstValues(p, m);
    var q := Combine(ys, Units(m));
    CombineLength(ys, Units(m), m);
    var xs := FirstPoints(m);
    forall i | 0 <= i < m ensures Eval(p, xs[i]) == Eval(q, xs[i]) {
      EvalCombine(ys, Units(m), xs[i]);
      forall j | 0 <= j < m ensures Evals(Units(m), xs[i])[j] == if j == i then 1.0 else 0.0 {
        UnitAt(m, j, i);
      }
      DotUnit(ys, Evals(Units(m), xs[i]), i);
    }
    AgreeEverywhere(p, q, xs, 0.0);
    EvalCombine(ys, Units(m), 0.0);
    DotCommutes(ys, Weights(m));
  }

  // ----- The public row of a commitment with low rows -----

  /** A polynomial of the right degree that the row of node `idx` looks like. */
  ghost function LowRow(c: Bivar, n: nat, threshold: nat, idx: nat): (p: Poly)
    requires RowIsLow(c, n, threshold, idx)
    ensures |p| <= threshold + 1 && Fits(p, Row(c, Point(idx)), n)
  {
    var p: Poly :| |p| <= threshold + 1 && Fits(p, Row(c, Point(idx)), n);
    p
  }

  ghost function LowRows(c: Bivar, n: nat, threshold: nat): (ps: seq<Poly>)
    requires IsLow(c, n, threshold) && threshold < n
    ensures |ps| == threshold + 1
  {
    seq(threshold + 1, i requires 0 <= i <= threshold => LowRow(c, n, threshold, i))
  }

  /** At the points of the nodes, but not necessarily at zero. */
  ghost predicate LooksLike(g: Poly, q: Poly, n: nat) {
    forall k: nat :: 0 < k <= n ==> AgreeAt(g, q, k)
  }

  lemma PublicRowLooksLow(c: Bivar, n: nat, threshold: nat) returns (g: Poly)
    requires IsLow(c, n, threshold) && threshold < n
    ensures |g| <= threshold + 1 && LooksLike(g, Row(c, 0.0), n)
  {
    hide Eval, Row, RowIsLow, LowRow;
    var m := threshold + 1;
    var ps := LowRows(c, n, threshold);
    g := Combine(Weights(m), ps);
    CombineLength(Weights(m), ps, m);
    forall k: nat | 0 < k <= n ensures AgreeAt(g, Row(c, 0.0), k) {
      PublicRowAt(c, n, threshold, k);
    }
  }

  lemma PublicRowAt(c: Bivar, n: nat, threshold: nat, k: nat)
    requires IsLow(c, n, threshold) && threshold < n && 0 < k <= n
    ensures AgreeAt(Combine(Weights(threshold + 1), LowRows(c, n, threshold)), Row(c, 0.0), k)
  {
    hide Eval, Row, RowIsLow, LowRow, Weights, Dot, Combine;
    var m, x := threshold + 1, k as real;
    var ps := LowRows(c, n, threshold);
    EvalCombine(Weights(m), ps, x);
    assert RowIsLow(c, n, threshold, k - 1);
    var p := LowRow(c, n, threshold, k - 1);
    ValueAtZero(p, m);
    forall i | 0 <= i < m ensures Evals(ps, x)[i] == FirstValues(p, m)[i] {
      var point: nat := i + 1;
      assert RowIsLow(c, n, threshold, i);
      assert AgreeAt(ps[i], Row(c, Point(i)), k);
      assert AgreeAt(p, Row(c, Point(k - 1)), point);
      Symmetric(c, Point(i), Point(k - 1));
    }
    assert Evals(ps, x) == FirstValues(p, m);
    assert AgreeAt(p, Row(c, Point(k - 1)), 0);
    Symmetric(c, Point(k - 1), 0.0);
  }

  lemma {:induction false} PublicPolyLooksLow(parts: Parts, n: nat, threshold: nat, bound: nat) returns (g: Poly)
    requires AllLow(parts, n, threshold) && threshold < n
    ensures |g| <= threshold + 1 && LooksLike(g, PublicPoly(parts, threshold, bound), n)
  {
    hide Eval, Row, Add, IsLow;
    g := [];
    if bound > 0 {
      g := PublicPolyLooksLow(parts, n, threshold, bound - 1);
      if IsCompleteAt(parts, threshold, bound - 1) {
        var before, row := PublicPoly(parts, threshold, bound - 1), Row(parts[bound - 1].commit, 0.0);
        var r := PublicRowLooksLow(parts[bound - 1].commit, n, threshold);
        var sum := Add(g, r);
        forall k: nat | 0 < k <= n ensures AgreeAt(sum, Add(before, row), k) {
          assert AgreeAt(g, before, k) && AgreeAt(r, row, k);
          EvalAdd(g, r, k as real);
          EvalAdd(before, row, k as real);
        }
        g := sum;
      }
    }
  }

  // ----- The master secret -----

  function ShareSamples(sys: System, log: seq<Entry>, ids: seq<nat>): (r: seq<Sample>)
    requires forall i :: 0 <= i < |ids| ==> ids[i] < sys.n
    ensures |r| == |ids|
  {
    seq(|ids|, i requires 0 <= i < |ids| => Sample(Point(ids[i]), Share(sys, log, ids[i])))
  }

  /** What these validators get when they put their shares together. */
  function Secret(sys: System, log: seq<Entry>, ids: seq<nat>): real
    requires forall i :: 0 <= i < |ids| ==> ids[i] < sys.n
  {
    Eval(Interpolate(ShareSamples(sys, log, ids)), 0.0)
  }

  /** More than `threshold` different validators. */
  ghost predicate AreEnough(sys: System, ids: seq<nat>) {
    AreIds(ids, sys.n) && |ids| > sys.threshold
  }

  ghost predicate LogIsLow(sys: System, log: seq<Entry>) {
    AllLow(Replay(Config(sys.n, None, sys.threshold), log), sys.n, sys.threshold)
  }

  lemma EnoughNodes(sys: System, ids: seq<nat>)
    requires AreEnough(sys, ids)
    ensures sys.threshold < sys.n
  {
    IdSetSize(ids, sys.n);
    InValidators(ids, sys.n);
    ValidatorsSize(sys.n);
    SubsetSize(IdSet(ids), Validators(sys.n));
  }

  /** The secret is what the public key would have at zero if its degree were right. */
  lemma SecretOf(sys: System, log: seq<Entry>, ids: seq<nat>, g: Poly)
    requires sys.Valid() && IsLog(sys, log) && AreEnough(sys, ids) && LogIsLow(sys, log)
    requires |g| <= sys.threshold + 1 && LooksLike(g, PublicKey(sys, log), sys.n)
    ensures Secret(sys, log, ids) == Eval(g, 0.0)
  {
    hide Replay, IsLog, Eval, Share, PublicKey, Interpolate, AllLow;
    var samples := ShareSamples(sys, log, ids);
    forall i | 0 <= i < |ids| ensures samples[i].y == Eval(g, samples[i].x) {
      KeyShareCorrectness(sys, log, ids[i]);
      var k: nat := ids[i] + 1;
      assert AgreeAt(g, PublicKey(sys, log), k);
    }
    assert Distinct(Points(samples));
    InterpolationIsUnique(g, samples, 0.0);
  }

  lemma KeyLooksLow(sys: System, log: seq<Entry>) returns (g: Poly)
    requires LogIsLow(sys, log) && sys.threshold < sys.n
    ensures |g| <= sys.threshold + 1 && LooksLike(g, PublicKey(sys, log), sys.n)
  {
    hide Replay, AllLow, PublicPoly;
    g := PublicPolyLooksLow(Replay(Config(sys.n, None, sys.threshold), log), sys.n, sys.threshold, sys.n);
  }

  /** For every log under which the shares fit: it does not matter which `threshold + 1` or more
      validators put their shares together. They always get the same secret. */
  lemma SameSecret(sys: System, log: seq<Entry>, ids: seq<nat>, ids': seq<nat>)
    requires sys.Valid() && IsLog(sys, log) && AreEnough(sys, ids) && AreEnough(sys, ids') && LogIsLow(sys, log)
    ensures Secret(sys, log, ids) == Secret(sys, log, ids')
  {
    hide IsLog, Eval, PublicKey, LogIsLow, Interpolate, Share;
    EnoughNodes(sys, ids);
    var g := KeyLooksLow(sys, log);
    SecretOf(sys, log, ids, g);
    SecretOf(sys, log, ids', g);
  }

  /** At zero, too, the public key looks like one of the right degree. */
  ghost predicate KeyIsLow(q: Poly, n: nat, threshold: nat) {
    exists p: Poly :: |p| <= threshold + 1 && Fits(p, q, n)
  }

  lemma LooksAlike(g: Poly, p: Poly, q: Poly, n: nat, x: real)
    requires |g| <= n && |p| <= n && LooksLike(g, q, n) && LooksLike(p, q, n)
    ensures Eval(g, x) == Eval(p, x)
  {
    hide Eval;
    var xs := FirstPoints(n);
    forall i | 0 <= i < n ensures Eval(g, xs[i]) == Eval(p, xs[i]) {
      var k: nat := i + 1;
      assert AgreeAt(g, q, k) && AgreeAt(p, q, k);
    }
    assert Distinct(xs);
    AgreeEverywhere(g, p, xs, x);
  }

  /** The complete parts have fewer powers than there are nodes, as if their degree is right. */
  ghost predicate FewPowers(sys: System, log: seq<Entry>) {
    var parts := Replay(Config(sys.n, None, sys.threshold), log);
    forall p :: IsCompleteAt(parts, sys.threshold, p) ==> Degree(parts[p].commit) < sys.n
  }

  /** Without coefficients above the threshold, a row has the same values as its beginning. */
  lemma RowBegins(c: Bivar, n: nat, threshold: nat, x: real) returns (p: Poly)
    requires NoHighCoefficients(c, threshold)
    ensures |p| <= threshold + 1 && Fits(p, Row(c, x), n)
  {
    hide Row, Eval, CoeffRow;
    var row := Row(c, x);
    var len := if |row| <= threshold + 1 then |row| else threshold + 1;
    p := row[..len];
    forall j | len <= j < |row| ensures row[j] == 0.0 {
      RowAt(c, x, j);
      ZeroRow(c, j, x);
    }
    forall k: nat | k <= n ensures AgreeAt(p, row, k) {
      EvalPrefix(row, len, k as real);
    }
  }

  lemma {:induction false} PublicPolyFits(parts: Parts, n: nat, threshold: nat, bound: nat) returns (g: Poly)
    requires forall p :: IsCompleteAt(parts, threshold, p) ==> NoHighCoefficients(parts[p].commit, threshold)
    ensures |g| <= threshold + 1 && Fits(g, PublicPoly(parts, threshold, bound), n)
  {
    hide Eval, Row, Add, NoHighCoefficients;
    g := [];
    if bound > 0 {
      g := PublicPolyFits(parts, n, threshold, bound - 1);
      if IsCompleteAt(parts, threshold, bound - 1) {
        var before, row := PublicPoly(parts, threshold, bound - 1), Row(parts[bound - 1].commit, 0.0);
        var r := RowBegins(parts[bound - 1].commit, n, threshold, 0.0);
        var sum := Add(g, r);
        forall k: nat | k <= n ensures AgreeAt(sum, Add(before, row), k) {
          assert AgreeAt(g, before, k) && AgreeAt(r, row, k);
          EvalAdd(g, r, k as real);
          EvalAdd(before, row, k as real);
        }
        g := sum;
      }
    }
  }

  lemma KeyWithFewPowers(sys: System, log: seq<Entry>)
    requires LogIsLow(sys, log) && FewPowers(sys, log) && sys.threshold < sys.n
    ensures KeyIsLow(PublicKey(sys, log), sys.n, sys.threshold)
  {
    hide Eval, Row, Replay, IsLow, NoHighCoefficients, PublicPoly;
    var parts := Replay(Config(sys.n, None, sys.threshold), log);
    forall p | IsCompleteAt(parts, sys.threshold, p)
      ensures NoHighCoefficients(parts[p].commit, sys.threshold)
    {
      LowHasNoHigh(parts[p].commit, sys.n, sys.threshold);
    }
    var g := PublicPolyFits(parts, sys.n, sys.threshold, sys.n);
  }

  /** For every log under which the shares fit: the secret is the one behind the public key
      exactly if the public key looks like one of degree `threshold` at zero, too. This is so if
      all complete parts have fewer powers than there are nodes. */
  lemma MasterSecret(sys: System, log: seq<Entry>, ids: seq<nat>)
    requires sys.Valid() && IsLog(sys, log) && AreEnough(sys, ids) && LogIsLow(sys, log)
    ensures Secret(sys, log, ids) == Eval(PublicKey(sys, log), 0.0)
            <==> KeyIsLow(PublicKey(sys, log), sys.n, sys.threshold)
    ensures FewPowers(sys, log) ==> Secret(sys, log, ids) == Eval(PublicKey(sys, log), 0.0)
  {
    hide IsLog, Eval, PublicPoly, Secret, Replay, AllLow, FewPowers;
    EnoughNodes(sys, ids);
    var key := PublicKey(sys, log);
    var g := KeyLooksLow(sys, log);
    SecretOf(sys, log, ids, g);
    if Eval(g, 0.0) == Eval(key, 0.0) {
      forall k: nat | k <= sys.n ensures AgreeAt(g, key, k) {
      }
      assert Fits(g, key, sys.n);
    }
    if KeyIsLow(key, sys.n, sys.threshold) {
      var p: Poly :| |p| <= sys.threshold + 1 && Fits(p, key, sys.n);
      LooksAlike(g, p, key, sys.n, 0.0);
      assert AgreeAt(p, key, 0);
    }
    if FewPowers(sys, log) {
      KeyWithFewPowers(sys, log);
    }
  }

  // ----- Shares that fit, and a secret that does not -----

  /** The coefficients of `(x - 1) (x - 2) (x - 3)`. */
  function NodeRoots(): Poly {
    [-6.0, 11.0, -6.0, 1.0]
  }

  /** The product of that in `x` and in `y`. */
  function NodeRootsSquare(): (c: Bivar)
    ensures Degree(c) == 3
  {
    Triangle(seq(4, i requires 0 <= i < 4 => seq(i + 1, j requires 0 <= j <= i => NodeRoots()[i] * NodeRoots()[j])))
  }

  lemma EvalNodeRoots(x: real)
    requires x == 0.0 || x == 1.0 || x == 2.0 || x == 3.0
    ensures Eval(NodeRoots(), x) == if x == 0.0 then -6.0 else 0.0
  {
    var p := NodeRoots();
    assert p[1..] == [11.0, -6.0, 1.0] && p[1..][1..] == [-6.0, 1.0];
    EvalLine(-6.0, 1.0, x);
  }

  lemma NodeRootsRow(x: real)
    requires x == 0.0 || x == 1.0 || x == 2.0 || x == 3.0
    ensures Row(NodeRootsSquare(), x) == Scale(NodeRoots(), if x == 0.0 then -6.0 else 0.0)
  {
    hide Eval;
    var c, z := NodeRootsSquare(), NodeRoots();
    EvalNodeRoots(x);
    forall j | 0 <= j <= 3 ensures Row(c, x)[j] == z[j] * Eval(z, x) {
      RowAt(c, x, j);
      forall i | 0 <= i <= 3 ensures CoeffRow(c, j)[i] == z[j] * z[i] {
        assert Coeff(c, j, i) == if j >= i then z[j] * z[i] else z[i] * z[j];
      }
      assert CoeffRow(c, j) == Scale(z, z[j]);
      EvalScale(z, z[j], x);
    }
  }

  /** Three nodes, of which the first is faulty and deals a commitment of degree three that is
      zero at the points of all nodes. All shares are zero and fit the public key. The secret
      that the validators get is zero, too, but the public key is for the secret `36`. */
  lemma SecretCanDiffer() returns (sys: System, log: seq<Entry>)
    ensures sys == System(3, 1, {0}, {1, 2}) && sys.Valid() && IsLog(sys, log) && LogIsLow(sys, log)
    ensures AreEnough(sys, [1, 2]) && Secret(sys, log, [1, 2]) == 0.0
    ensures Eval(PublicKey(sys, log), 0.0) == 36.0
  {
    hide Row, Eval, IsLog, Share, PublicPoly, OnePartLog, NodeRootsSquare, IsLow, Secret, Replay;
    sys := System(3, 1, {0}, {1, 2});
    assert Validators(3) == {0, 1, 2} by {
      assert IsBelow(0, 3) && IsBelow(1, 3) && IsBelow(2, 3);
    }
    var c, ids := NodeRootsSquare(), [0, 1, 2];
    log := OnePartLog(3, c, 0, ids, {0, 1, 2});
    OnePartIsLog(sys, c, 0, ids, {0, 1, 2});
    OnePartKey(sys, c, log, ids);
    NodeRootsAreLow();
    NodeRootsRow(0.0);
    EvalScale(NodeRoots(), -6.0, 0.0);
    EvalNodeRoots(0.0);
    forall k: nat | 0 < k <= 3 ensures AgreeAt([], PublicKey(sys, log), k) {
      EvalScale(NodeRoots(), -6.0, k as real);
      EvalNodeRoots(k as real);
      EvalNothing(k as real);
    }
    SecretOf(sys, log, [1, 2], []);
    EvalNothing(0.0);
  }

  lemma OnePartKey(sys: System, c: Bivar, log: seq<Entry>, ids: seq<nat>)
    requires sys.n == 3 && sys.threshold == 1 && ids == [0, 1, 2]
    requires log == OnePartLog(3, c, 0, ids, {0, 1, 2})
    ensures PublicKey(sys, log) == Row(c, 0.0)
    ensures IsLow(c, 3, 1) ==> LogIsLow(sys, log)
  {
    hide Row, Eval, IsLow, Replay, OnePartLog, SecretShare;
    var cfg, none := sys.Node(0), Config(3, None, 1);
    OnePartReplay(cfg, c, 0, ids, {0, 1, 2});
    IdSetSize(ids, 3);
    var parts := Replay(cfg, log);
    OnlyComplete(parts, 0, 3, 1, 3);
    PublicAgreement(cfg, none, log, 3);
  }

  lemma NodeRootsAreLow()
    ensures IsLow(NodeRootsSquare(), 3, 1)
  {
    hide Row, Eval, NodeRootsSquare;
    var c := NodeRootsSquare();
    forall idx: nat | idx < 3 ensures RowIsLow(c, 3, 1, idx) {
      var row := Row(c, Point(idx));
      NodeRootsRow(Point(idx));
      forall k: nat | k <= 3 ensures AgreeAt([], row, k) {
        EvalScale(NodeRoots(), 0.0, k as real);
        EvalNothing(k as real);
      }
      assert Fits([], row, 3);
    }
  }
}
