/** What it takes that the shares fit the public key, although the code does not check the
    degree of a commitment: logs in which the shares come out wrong, whenever they can. */
module KeyShareDegrees {
  import opened Options
  import opened Quorums
  import opened Polynomials
  import opened SyncKeyGenSpec
  import opened KeyShares

  // ----- A log with one part -----

  function JunkCiphers(n: nat): (r: seq<Ciphertext>)
    ensures |r| == n
  {
    seq(n, idx requires 0 <= idx < n => Ciphertext(idx, Junk))
  }

  /** The ack of node `id`: with the values of its row, or with junk. */
  function AckOf(n: nat, c: Bivar, dealer: nat, id: nat, good: set<nat>): Entry {
    AckEntry(id, Ack(dealer, if id in good then ValueCiphers(Row(c, Point(id)), n) else JunkCiphers(n)))
  }

  /** The dealer's part, and then the acks of these nodes. */
  function OnePartLog(n: nat, c: Bivar, dealer: nat, ids: seq<nat>, good: set<nat>): (log: seq<Entry>)
    ensures |log| == |ids| + 1
  {
    if ids == [] then [PartEntry(dealer, Part(c, RowCiphers(c, n)))]
    else
      var last := |ids| - 1;
      OnePartLog(n, c, dealer, ids[..last], good) + [AckOf(n, c, dealer, ids[last], good)]
  }

  /** The values that node `idx` keeps. */
  function GoodValues(c: Bivar, idx: nat, ids: seq<nat>, good: set<nat>): map<nat, real> {
    if ids == [] then map[]
    else
      var last := |ids| - 1;
      var before := GoodValues(c, idx, ids[..last], good);
      if ids[last] in good then before[ids[last] + 1 := Evaluate(c, Point(idx), Point(ids[last]))] else before
  }

  function IdSet(ids: seq<nat>): set<nat> {
    set i | i in ids
  }

  ghost predicate AreIds(ids: seq<nat>, n: nat) {
    && (forall i :: 0 <= i < |ids| ==> ids[i] < n)
    && (forall i, j :: 0 <= i < j < |ids| ==> ids[i] != ids[j])
  }

  lemma AckHandled(cfg: Config, c: Bivar, dealer: nat, id: nat, good: set<nat>, part: ProposalState)
    requires cfg.Valid() && cfg.ourIdx.Some? && id < cfg.n && id !in part.acks && part.commit == c
    ensures var idx := cfg.ourIdx.value;
            Handle(cfg, map[dealer := part], AckOf(cfg.n, c, dealer, id, good))
            == map[dealer := ProposalState(
                     c,
                     if id in good then part.values[id + 1 := Evaluate(c, Point(idx), Point(id))] else part.values,
                     part.acks + {id})]
  {
    hide Row, Eval;
    Symmetric(c, Point(cfg.ourIdx.value), Point(id));
  }

  lemma PartHandled(cfg: Config, c: Bivar, dealer: nat)
    requires cfg.Valid() && dealer < cfg.n
    ensures Handle(cfg, map[], PartEntry(dealer, Part(c, RowCiphers(c, cfg.n))))
            == map[dealer := ProposalState(c, map[], {})]
  {
    hide Row;
  }

  lemma {:induction false} OnePartReplay(
    cfg: Config, c: Bivar, dealer: nat, ids: seq<nat>, good: set<nat>)
    requires cfg.Valid() && cfg.ourIdx.Some? && dealer < cfg.n && AreIds(ids, cfg.n)
    ensures Replay(cfg, OnePartLog(cfg.n, c, dealer, ids, good))
            == map[dealer := ProposalState(c, GoodValues(c, cfg.ourIdx.value, ids, good), IdSet(ids))]
  {
    hide Handle, AckOf, Evaluate;
    var log := OnePartLog(cfg.n, c, dealer, ids, good);
    if ids == [] {
      assert log[..0] == [];
      PartHandled(cfg, c, dealer);
      assert IdSet(ids) == {};
    } else {
      var last := |ids| - 1;
      OnePartReplay(cfg, c, dealer, ids[..last], good);
      assert log[..|log| - 1] == OnePartLog(cfg.n, c, dealer, ids[..last], good);
      AckHandled(cfg, c, dealer, ids[last], good,
                 ProposalState(c, GoodValues(c, cfg.ourIdx.value, ids[..last], good), IdSet(ids[..last])));
      assert IdSet(ids) == IdSet(ids[..last]) + {ids[last]};
    }
  }

  lemma OnePartAt(n: nat, c: Bivar, dealer: nat, ids: seq<nat>, good: set<nat>, k: nat)
    requires k <= |ids|
    ensures var log := OnePartLog(n, c, dealer, ids, good);
            && log[0] == PartEntry(dealer, Part(c, RowCiphers(c, n)))
            && (k > 0 ==> log[k] == AckOf(n, c, dealer, ids[k - 1], good))
    decreases |ids|
  {
    hide AckOf;
    if ids != [] {
      var last := |ids| - 1;
      OnePartAt(n, c, dealer, ids[..last], good, if k > last then last else k);
    }
  }

  /** The acks of correct nodes are those that they send when they handle the part. */
  lemma OnePartIsLog(sys: System, c: Bivar, dealer: nat, ids: seq<nat>, good: set<nat>)
    requires sys.Valid() && dealer < sys.n
    requires forall id :: id in ids && id in sys.correct ==> id in good
    ensures IsLog(sys, OnePartLog(sys.n, c, dealer, ids, good))
  {
    hide Replay, Row, HandlePart;
    var log := OnePartLog(sys.n, c, dealer, ids, good);
    forall k | 0 <= k < |log| && log[k].AckEntry? && log[k].sender in sys.correct
      ensures IsAckOf(sys, log[..k], log[k].sender, log[k].ack)
    {
      OnePartAt(sys.n, c, dealer, ids, good, k);
      var id := log[k].sender;
      assert id in Validators(sys.n);
      CorrectPartAccepted(sys.Node(id), map[], dealer, c);
      NothingYet(sys.Node(id), log[..k]);
      assert AckedAt(sys.Node(id), log[..k], 0, log[k].ack);
    }
  }

  lemma NothingYet(cfg: Config, log: seq<Entry>)
    requires cfg.Valid()
    ensures Replay(cfg, log[..0]) == map[]
  {
  }

  // ----- The shares of such a log -----

  lemma {:induction false} OnlyComplete(parts: Parts, dealer: nat, n: nat, threshold: nat, bound: nat)
    requires parts.Keys == {dealer} && parts[dealer].IsComplete(threshold)
    ensures SecretShare(parts, n, threshold, bound)
            == if dealer < bound then ColumnAtZero(parts[dealer], n, threshold) else 0.0
    ensures PublicPoly(parts, threshold, bound) == if dealer < bound then Row(parts[dealer].commit, 0.0) else []
  {
    hide Row, ColumnAtZero;
    if bound > 0 {
      OnlyComplete(parts, dealer, n, threshold, bound - 1);
    }
  }

  lemma {:induction false} IdSetSize(ids: seq<nat>, n: nat)
    requires AreIds(ids, n)
    ensures |IdSet(ids)| == |ids|
  {
    if ids == [] {
      assert IdSet(ids) == {};
    } else {
      var last := |ids| - 1;
      IdSetSize(ids[..last], n);
      assert IdSet(ids) == IdSet(ids[..last]) + {ids[last]};
    }
  }

  /** The values are on the row. */
  ghost predicate GoodValuesOk(row: Poly, ids: seq<nat>, good: set<nat>, values: map<nat, real>) {
    forall k :: k in values ==> k > 0 && k - 1 in ids && k - 1 in good && values[k] == Eval(row, k as real)
  }

  lemma {:induction false} GoodValuesAre(c: Bivar, idx: nat, ids: seq<nat>, good: set<nat>)
    ensures GoodValuesOk(Row(c, Point(idx)), ids, good, GoodValues(c, idx, ids, good))
    decreases |ids|
  {
    hide Row, Eval, GoodValuesOk;
    var row := Row(c, Point(idx));
    if ids == [] {
      NoValues(row, good);
    } else {
      var last := |ids| - 1;
      GoodValuesAre(c, idx, ids[..last], good);
      assert ids == ids[..last] + [ids[last]];
      OneMoreValue(row, ids[..last], good, GoodValues(c, idx, ids[..last], good), ids[last]);
    }
  }

  lemma NoValues(row: Poly, good: set<nat>)
    ensures GoodValuesOk(row, [], good, map[])
  {
  }

  lemma OneMoreValue(row: Poly, ids: seq<nat>, good: set<nat>, values: map<nat, real>, id: nat)
    requires GoodValuesOk(row, ids, good, values)
    ensures GoodValuesOk(row, ids + [id], good, if id in good then values[id + 1 := Eval(row, Point(id))] else values)
  {
    hide Eval;
  }

  /** There is a value for each good ack. */
  lemma {:induction false} GoodValuesSize(c: Bivar, idx: nat, ids: seq<nat>, good: set<nat>)
    ensures forall id :: id in IdSet(ids) * good ==> id + 1 in GoodValues(c, idx, ids, good).Keys
    ensures |IdSet(ids) * good| <= |GoodValues(c, idx, ids, good)|
    decreases |ids|
  {
    hide Evaluate;
    if ids != [] {
      var last := |ids| - 1;
      GoodValuesSize(c, idx, ids[..last], good);
      forall id | id in IdSet(ids) * good ensures id + 1 in GoodValues(c, idx, ids, good).Keys {
        if id != ids[last] {
          assert id in ids[..last];
          assert id in IdSet(ids[..last]) * good;
        }
      }
    }
    ShiftedSize(IdSet(ids) * good, GoodValues(c, idx, ids, good).Keys);
  }

  lemma GoodValuesFit(row: Poly, p: Poly, ids: seq<nat>, good: set<nat>, values: map<nat, real>, n: nat)
    requires GoodValuesOk(row, ids, good, values) && AreIds(ids, n)
    requires forall id :: id in ids && id in good ==> AgreeAt(p, row, id + 1)
    ensures forall k :: k in values ==> k <= n && values[k] == Eval(p, k as real)
  {
    hide Eval;
    forall k | k in values ensures k <= n && values[k] == Eval(p, k as real) {
      var id: nat := k - 1;
      assert id in ids && AgreeAt(p, row, id + 1);
    }
  }

  /** What `idx` makes of the log, if `p` goes through the values that it keeps. */
  lemma OnePartShare(
    sys: System, c: Bivar, dealer: nat, ids: seq<nat>, good: set<nat>, idx: nat, p: Poly)
    requires dealer < sys.n && idx < sys.n && AreIds(ids, sys.n)
    requires |ids| > 2 * sys.threshold && |IdSet(ids) * good| > sys.threshold && |p| <= sys.threshold + 1
    requires forall id :: id in ids && id in good ==> AgreeAt(p, Row(c, Point(idx)), id + 1)
    ensures var log := OnePartLog(sys.n, c, dealer, ids, good);
            && IsDealt(sys, log, dealer, c)
            && Share(sys, log, idx) == Eval(p, 0.0)
            && Eval(PublicKey(sys, log), Point(idx)) == Eval(Row(c, Point(idx)), 0.0)
  {
    hide Row, Eval, Replay, OnePartLog, GoodValues, ColumnAtZero, SecretShare, PublicPoly, AreIds;
    var log := OnePartLog(sys.n, c, dealer, ids, good);
    var cfg, none := sys.Node(idx), Config(sys.n, None, sys.threshold);
    var parts := Replay(cfg, log);
    OnePartReplay(cfg, c, dealer, ids, good);
    IdSetSize(ids, sys.n);
    OnlyComplete(parts, dealer, sys.n, sys.threshold, sys.n);
    PublicAgreement(cfg, none, log, sys.n);
    GoodValuesAre(c, idx, ids, good);
    GoodValuesSize(c, idx, ids, good);
    GoodValuesFit(Row(c, Point(idx)), p, ids, good, parts[dealer].values, sys.n);
    ColumnFits(parts[dealer], sys.n, sys.threshold, p);
    Symmetric(c, Point(idx), 0.0);
  }

  // ----- The exact condition -----

  /** In this log exactly the part of one dealer is complete, and it commits to `c`. */
  ghost predicate IsDealt(sys: System, log: seq<Entry>, dealer: nat, c: Bivar) {
    var parts := Replay(Config(sys.n, None, sys.threshold), log);
    CompleteParts(parts, sys.threshold) == {dealer} && dealer in parts && parts[dealer].commit == c
  }

  /** The share of every validator fits the public key set. */
  ghost predicate Matches(sys: System, log: seq<Entry>) {
    forall idx: nat :: idx < sys.n ==> Share(sys, log, idx) == Eval(PublicKey(sys, log), Point(idx))
  }

  /** Whatever a faulty dealer and the other faulty nodes do to keep the key generation going
      with this one commitment, the shares fit. */
  ghost predicate AlwaysMatches(n: nat, threshold: nat, c: Bivar) {
    forall sys: System, log: seq<Entry>, dealer: nat ::
      sys.Valid() && sys.n == n && sys.threshold == threshold && dealer in sys.faulty
      && IsLog(sys, log) && IsDealt(sys, log, dealer, c) ==>
        Matches(sys, log)
  }

  lemma LowMatches(sys: System, log: seq<Entry>, dealer: nat, c: Bivar)
    requires sys.Valid() && IsLog(sys, log) && IsDealt(sys, log, dealer, c)
    requires IsLow(c, sys.n, sys.threshold)
    ensures Matches(sys, log)
  {
    hide Replay, IsLog, IsLow, Share, PublicKey, Eval;
    var parts := Replay(Config(sys.n, None, sys.threshold), log);
    forall p | IsCompleteAt(parts, sys.threshold, p) ensures IsLow(parts[p].commit, sys.n, sys.threshold) {
      assert p in CompleteParts(parts, sys.threshold);
    }
    forall idx: nat | idx < sys.n ensures Share(sys, log, idx) == Eval(PublicKey(sys, log), Point(idx)) {
      KeyShareCorrectness(sys, log, idx);
    }
  }

  /** A polynomial through the values of `row` at these points. */
  lemma Through(row: Poly, ks: seq<nat>) returns (p: Poly)
    requires forall i, j :: 0 <= i < j < |ks| ==> ks[i] != ks[j]
    ensures |p| == |ks| && forall k :: k in ks ==> AgreeAt(p, row, k)
  {
    hide Eval, Interpolate;
    var samples := seq(|ks|, i requires 0 <= i < |ks| => Sample(ks[i] as real, Eval(row, ks[i] as real)));
    p := Interpolate(samples);
    forall k | k in ks ensures AgreeAt(p, row, k) {
      var i :| 0 <= i < |ks| && ks[i] == k;
      assert Distinct(Points(samples));
      InterpolateHits(samples, i);
    }
  }

  /** The first `2 threshold` nodes but `id`, and then `id`. */
  function Ackers(threshold: nat, id: nat): (ids: seq<nat>)
    ensures |ids| == 2 * threshold + 1
  {
    seq(2 * threshold, i requires 0 <= i < 2 * threshold => if i < id then i else i + 1) + [id]
  }

  lemma AckersAreIds(n: nat, threshold: nat, id: nat)
    requires 2 * threshold < n && threshold <= id < n
    ensures AreIds(Ackers(threshold, id), n)
    ensures AreIds(Ackers(threshold, id)[threshold..2 * threshold], n)
    ensures forall k :: 0 <= k < threshold ==> Ackers(threshold, id)[k] == k
    ensures Ackers(threshold, id)[2 * threshold] == id
  {
  }

  lemma SplitIds(ids: seq<nat>, a: nat, b: nat)
    requires a <= b <= |ids|
    ensures IdSet(ids[a..b]) <= IdSet(ids)
    ensures forall i :: i in IdSet(ids) && i !in IdSet(ids[a..b]) ==> i in ids[..a] || i in ids[b..]
  {
    assert ids == ids[..a] + ids[a..b] + ids[b..];
  }

  lemma AckersAre(n: nat, threshold: nat, id: nat)
    requires 2 * threshold < n && threshold <= id < n
    ensures var ids := Ackers(threshold, id);
            var bad := IdSet(ids[threshold..2 * threshold]);
            && AreIds(ids, n) && |bad| == threshold && bad <= Validators(n)
            && |IdSet(ids) * (Validators(n) - bad)| == threshold + 1
            && (forall i :: i in ids && i !in bad ==> i < threshold || i == id)
  {
    hide Ackers;
    var ids := Ackers(threshold, id);
    var rest := ids[threshold..2 * threshold];
    AckersAreIds(n, threshold, id);
    IdSetSize(rest, n);
    IdSetSize(ids, n);
    SplitIds(ids, threshold, 2 * threshold);
    InValidators(rest, n);
    InValidators(ids, n);
    hide AreIds, IdSet;
    var bad := IdSet(rest);
    assert IdSet(ids) * (Validators(n) - bad) == IdSet(ids) - bad;
    Rest(IdSet(ids), bad);
    LastAcker(ids, threshold, id);
    MembersOf(ids);
  }

  lemma MembersOf(ids: seq<nat>)
    ensures forall i :: i in ids <==> i in IdSet(ids)
  {
  }

  lemma LastAcker(ids: seq<nat>, threshold: nat, id: nat)
    requires |ids| == 2 * threshold + 1 && ids[2 * threshold] == id
    requires forall k :: 0 <= k < threshold ==> ids[k] == k
    ensures forall i :: i in ids[..threshold] || i in ids[2 * threshold..] ==> i < threshold || i == id
  {
  }

  lemma InValidators(ids: seq<nat>, n: nat)
    requires AreIds(ids, n)
    ensures IdSet(ids) <= Validators(n)
  {
  }

  lemma Rest(a: set<nat>, b: set<nat>)
    requires b <= a
    ensures |a - b| == |a| - |b|
  {
    assert a == (a - b) + b;
  }

  /** A log in which the values that everyone keeps are those of the first `threshold` nodes
      and of `id`, as the other `threshold` acks are junk. If the shares fit in it, rows have
      the right value at zero when they are interpolated from there. */
  lemma FitsAtZero(n: nat, threshold: nat, c: Bivar, id: nat, idx: nat, q: Poly)
    requires 0 < threshold && 2 * threshold < n && threshold <= id < n && idx < n
    requires AlwaysMatches(n, threshold, c) && |q| <= threshold + 1
    requires forall k: nat :: (0 < k <= threshold || k == id + 1) ==> AgreeAt(q, Row(c, Point(idx)), k)
    ensures AgreeAt(q, Row(c, Point(idx)), 0)
  {
    hide Row, Eval, IsLog, IsDealt, Share, PublicKey, Ackers, OnePartLog, AreIds;
    AckersAre(n, threshold, id);
    var ids := Ackers(threshold, id);
    var bad := IdSet(ids[threshold..2 * threshold]);
    var sys := System(n, threshold, bad, Validators(n) - bad);
    var dealer := ids[threshold];
    assert dealer in bad by {
      assert ids[threshold..2 * threshold][0] == dealer;
    }
    assert dealer in Validators(n);
    OnePartIsLog(sys, c, dealer, ids, sys.correct);
    forall i | i in ids && i in sys.correct ensures AgreeAt(q, Row(c, Point(idx)), i + 1) {
    }
    OnePartShare(sys, c, dealer, ids, sys.correct, idx, q);
    assert Matches(sys, OnePartLog(n, c, dealer, ids, sys.correct));
  }

  lemma MatchesIsLow(n: nat, threshold: nat, c: Bivar, idx: nat)
    requires 0 < threshold && 2 * threshold < n && idx < n && AlwaysMatches(n, threshold, c)
    ensures RowIsLow(c, n, threshold, idx)
  {
    hide Row, Eval, AlwaysMatches;
    var row := Row(c, Point(idx));
    var ks := seq(threshold + 1, i requires 0 <= i <= threshold => i);
    var p := Through(row, ks);
    forall j: nat | j <= threshold ensures j in ks {
      assert ks[j] == j;
    }
    forall k: nat | k <= n ensures AgreeAt(p, row, k) {
      if k > threshold {
        var ls := ks[1..] + [k];
        var q := Through(row, ls);
        forall j: nat | 0 < j <= threshold || j == k ensures j in ls {
          assert ls[if j == k then threshold else j - 1] == j;
        }
        FitsAtZero(n, threshold, c, k - 1, idx, q);
        SameAt(p, q, row, threshold, k);
      }
    }
    assert Fits(p, row, n);
  }

  /** Polynomials with `threshold + 1` coefficients that have the values of `row` up to there
      have the same values everywhere. */
  lemma SameAt(p: Poly, q: Poly, row: Poly, threshold: nat, k: nat)
    requires |p| <= threshold + 1 && |q| <= threshold + 1 && AgreeAt(q, row, k)
    requires forall j: nat :: j <= threshold ==> AgreeAt(p, row, j) && AgreeAt(q, row, j)
    ensures AgreeAt(p, row, k)
  {
    hide Eval;
    var xs := seq(threshold + 1, i requires 0 <= i <= threshold => i as real);
    forall i | 0 <= i < |xs| ensures Eval(p, xs[i]) == Eval(q, xs[i]) {
      var j: nat := i;
      assert AgreeAt(p, row, j) && AgreeAt(q, row, j);
    }
    assert Distinct(xs);
    AgreeEverywhere(p, q, xs, k as real);
  }

  /** The exact condition for the shares to fit, whatever faulty nodes do: at the points of the
      nodes and at zero, the rows of the commitment are those of degree `threshold`. */
  lemma SharesMatchIff(n: nat, threshold: nat, c: Bivar)
    requires 0 < threshold && 2 * threshold < n
    ensures AlwaysMatches(n, threshold, c) <==> IsLow(c, n, threshold)
  {
    if AlwaysMatches(n, threshold, c) {
      hide AlwaysMatches, RowIsLow;
      forall idx: nat | idx < n ensures RowIsLow(c, n, threshold, idx) {
        MatchesIsLow(n, threshold, c, idx);
      }
    }
    if IsLow(c, n, threshold) {
      hide IsLow, Matches, IsLog, IsDealt;
      forall sys: System, log: seq<Entry>, dealer: nat
        | sys.Valid() && sys.n == n && sys.threshold == threshold && dealer in sys.faulty
          && IsLog(sys, log) && IsDealt(sys, log, dealer, c)
        ensures Matches(sys, log)
      {
        LowMatches(sys, log, dealer, c);
      }
    }
  }

  // ----- The condition on the degree -----

  /** No coefficient of a power above the threshold. */
  predicate NoHighCoefficients(c: Bivar, threshold: nat) {
    forall i, j :: threshold < i <= Degree(c) && 0 <= j <= Degree(c) ==> Coeff(c, i, j) == 0.0
  }

  /** The coefficients of a row are the values of the polynomials in the first variable. */
  lemma RowAt(c: Bivar, x: real, j: nat)
    requires j <= Degree(c)
    ensures Row(c, x)[j] == Eval(CoeffRow(c, j), x)
  {
  }

  lemma NoHighIsLow(c: Bivar, n: nat, threshold: nat, idx: nat)
    requires NoHighCoefficients(c, threshold)
    ensures RowIsLow(c, n, threshold, idx)
  {
    hide Row, Eval, CoeffRow;
    var row := Row(c, Point(idx));
    var len := if |row| <= threshold + 1 then |row| else threshold + 1;
    forall j | len <= j < |row| ensures row[j] == 0.0 {
      RowAt(c, Point(idx), j);
      ZeroRow(c, j, Point(idx));
    }
    forall k: nat | k <= n ensures AgreeAt(row[..len], row, k) {
      EvalPrefix(row, len, k as real);
    }
    assert Fits(row[..len], row, n);
  }

  lemma ZeroRow(c: Bivar, i: nat, x: real)
    requires i <= Degree(c) && forall j :: 0 <= j <= Degree(c) ==> Coeff(c, i, j) == 0.0
    ensures Eval(CoeffRow(c, i), x) == 0.0
  {
    hide Coeff;
    EvalPrefix(CoeffRow(c, i), 0, x);
    assert CoeffRow(c, i)[..0] == [];
  }

  /** The high coefficients of a row that fits a polynomial of low degree at enough points. */
  lemma LowRow(c: Bivar, n: nat, threshold: nat, idx: nat, j: nat)
    requires RowIsLow(c, n, threshold, idx) && Degree(c) < n && threshold < n && threshold < j <= Degree(c)
    ensures Row(c, Point(idx))[j] == 0.0
  {
    hide Row, Eval;
    var row := Row(c, Point(idx));
    var p: Poly :| |p| <= threshold + 1 && Fits(p, row, n);
    var d := Add(row, Scale(p, -1.0));
    forall k: nat | 0 < k <= n ensures AgreeAt(d, [], k) {
      assert AgreeAt(p, row, k);
      EvalAdd(row, Scale(p, -1.0), k as real);
      EvalScale(p, -1.0, k as real);
      EvalNothing(k as real);
    }
    NoCoefficients(d, n, j);
    AddTail(row, Scale(p, -1.0), j);
  }

  lemma EvalNothing(x: real)
    ensures Eval([], x) == 0.0
  {
  }

  lemma {:induction false} AddTail(p: Poly, q: Poly, j: nat)
    requires |q| <= j < |p|
    ensures Add(p, q)[j] == p[j]
    decreases |p|
  {
    if q != [] {
      AddTail(p[1..], q[1..], j - 1);
    }
  }

  lemma LowHasNoHigh(c: Bivar, n: nat, threshold: nat)
    requires IsLow(c, n, threshold) && Degree(c) < n && threshold < n
    ensures NoHighCoefficients(c, threshold)
  {
    hide Row, Eval, Coeff, RowIsLow;
    forall i, j | threshold < i <= Degree(c) && 0 <= j <= Degree(c) ensures Coeff(c, i, j) == 0.0 {
      var high := CoeffRow(c, i);
      forall k: nat | 0 < k <= n ensures AgreeAt(high, [], k) {
        var idx: nat := k - 1;
        assert RowIsLow(c, n, threshold, idx);
        LowRow(c, n, threshold, idx, i);
        RowAt(c, Point(idx), i);
        EvalNothing(k as real);
      }
      NoCoefficients(high, n, j);
      assert high[j] == Coeff(c, i, j);
    }
  }

  /** For commitments with fewer powers than there are nodes, the condition is that there are
      no coefficients above the threshold. If the leading ones are not all zero, this is the
      check of the degree that the code does not make. */
  lemma DegreeIsTheCondition(n: nat, threshold: nat, c: Bivar)
    requires 0 < threshold && 2 * threshold < n && Degree(c) < n
    ensures AlwaysMatches(n, threshold, c) <==> NoHighCoefficients(c, threshold)
    ensures (exists j :: 0 <= j <= Degree(c) && Coeff(c, Degree(c), j) != 0.0) ==>
              (AlwaysMatches(n, threshold, c) <==> Degree(c) <= threshold)
  {
    hide AlwaysMatches, RowIsLow, Coeff;
    SharesMatchIff(n, threshold, c);
    if NoHighCoefficients(c, threshold) {
      forall idx: nat | idx < n ensures RowIsLow(c, n, threshold, idx) {
        NoHighIsLow(c, n, threshold, idx);
      }
    }
    if IsLow(c, n, threshold) {
      LowHasNoHigh(c, n, threshold);
    }
  }

  // ----- An example -----

  /** The polynomial `x^2 y^2`. */
  function Square(): Bivar {
    Triangle([[0.0], [0.0, 0.0], [0.0, 0.0, 1.0]])
  }

  lemma EvalThree(a: real, x: real)
    ensures Eval([0.0, 0.0, a], x) == x * (x * a)
  {
    assert [0.0, 0.0, a][1..] == [0.0, a];
    EvalLine(0.0, a, x);
  }

  lemma EvalLine(a: real, b: real, x: real)
    ensures Eval([a, b], x) == a + x * b
  {
    assert [a, b][1..] == [b];
    EvalConstant(b, x);
  }

  lemma EvalConstant(a: real, x: real)
    ensures Eval([a], x) == a
  {
    assert [a][1..] == [];
  }

  lemma SquareRow(x: real)
    ensures Row(Square(), x) == [0.0, 0.0, x * x]
  {
    hide Eval;
    var c := Square();
    assert CoeffRow(c, 0) == CoeffRow(c, 1) == [0.0, 0.0, 0.0];
    assert CoeffRow(c, 2) == [0.0, 0.0, 1.0];
    EvalThree(0.0, x);
    EvalThree(1.0, x);
    RowAt(c, x, 0);
    RowAt(c, x, 1);
    RowAt(c, x, 2);
    hide Row, CoeffRow;
    assert |Row(c, x)| == 3 && Row(c, x)[0] == Row(c, x)[1] == x * (x * 0.0) == 0.0;
    assert Row(c, x)[2] == x * (x * 1.0) == x * x;
  }

  /** Four nodes, of which the first is faulty. It deals `x^2 y^2`, and nodes `1` and `2` ack
      that as they should, while its own ack is junk. The part is complete, and node `1` gets
      the share `-24`. To fit the public key, it would have to be zero. */
  lemma DegreeMatters() returns (sys: System, log: seq<Entry>)
    ensures sys == System(4, 1, {0}, {1, 2, 3}) && sys.Valid() && IsLog(sys, log)
    ensures IsDealt(sys, log, 0, Square()) && Degree(Square()) == 2
    ensures Share(sys, log, 1) == -24.0 && Eval(PublicKey(sys, log), Point(1)) == 0.0
  {
    hide Row, Eval, IsLog, IsDealt, Share, PublicKey, OnePartLog;
    sys := System(4, 1, {0}, {1, 2, 3});
    var ids := [1, 2, 0];
    log := OnePartLog(4, Square(), 0, ids, {1, 2, 3});
    OnePartIsLog(sys, Square(), 0, ids, {1, 2, 3});
    assert IdSet(ids) * {1, 2, 3} == {1, 2};
    var line := [-24.0, 20.0];
    SquareRow(2.0);
    EvalThree(4.0, 0.0);
    EvalLine(-24.0, 20.0, 0.0);
    forall id | id in ids && id in {1, 2, 3} ensures AgreeAt(line, Row(Square(), Point(1)), id + 1) {
      EvalThree(4.0, (id + 1) as real);
      EvalLine(-24.0, 20.0, (id + 1) as real);
    }
    OnePartShare(sys, Square(), 0, ids, {1, 2, 3}, 1, line);
  }

  // ----- A high degree that does no harm -----

  /** The coefficients of `x (x - 1) (x - 2) (x - 3)`. */
  function Roots(): Poly {
    [0.0, -6.0, 11.0, -6.0, 1.0]
  }

  /** The product of that in `x` and in `y`. */
  function RootsSquare(): (c: Bivar)
    ensures Degree(c) == 4
  {
    Triangle(seq(5, i requires 0 <= i < 5 => seq(i + 1, j requires 0 <= j <= i => Roots()[i] * Roots()[j])))
  }

  lemma {:induction false} EvalRoots(x: real)
    requires x == 1.0 || x == 2.0 || x == 3.0
    ensures Eval(Roots(), x) == 0.0
  {
    var p := Roots();
    EvalConstant(1.0, x);
    assert p[1..] == [-6.0, 11.0, -6.0, 1.0] && p[1..][1..] == [11.0, -6.0, 1.0];
    assert p[1..][1..][1..] == [-6.0, 1.0];
    EvalLine(-6.0, 1.0, x);
  }

  lemma RootsRow(idx: nat, j: nat)
    requires idx < 3 && j <= 4
    ensures Row(RootsSquare(), Point(idx))[j] == 0.0
  {
    hide Eval;
    var c, z := RootsSquare(), Roots();
    RowAt(c, Point(idx), j);
    assert CoeffRow(c, j) == Scale(z, z[j]) by {
      forall i | 0 <= i <= 4 ensures CoeffRow(c, j)[i] == z[j] * z[i] {
        assert Coeff(c, j, i) == if j >= i then z[j] * z[i] else z[i] * z[j];
      }
    }
    EvalScale(z, z[j], Point(idx));
    EvalRoots(Point(idx));
  }

  /** A commitment of degree four with which three nodes of threshold one always get shares that
      fit: among commitments with as many powers as nodes, the degree does not decide. */
  lemma HighDegreeCanMatch()
    ensures Degree(RootsSquare()) == 4 && AlwaysMatches(3, 1, RootsSquare())
  {
    hide Row, Eval, AlwaysMatches, RootsSquare;
    var c := RootsSquare();
    forall idx: nat | idx < 3 ensures RowIsLow(c, 3, 1, idx) {
      var row := Row(c, Point(idx));
      forall j | 0 <= j < |row| ensures row[j] == 0.0 {
        RootsRow(idx, j);
      }
      forall k: nat | k <= 3 ensures AgreeAt([], row, k) {
        EvalPrefix(row, 0, k as real);
        EvalNothing(k as real);
        assert row[..0] == [];
      }
      assert Fits([], row, 3);
    }
    SharesMatchIff(3, 1, c);
  }
}
