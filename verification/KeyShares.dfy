/** Key generation over a shared log: all nodes handle the same parts and acks in the same
    order, and their key shares fit together. */
module KeyShares {
  import opened Options
  import opened Quorums
  import opened Polynomials
  import opened SyncKeyGenSpec

  datatype Entry = PartEntry(sender: nat, part: Part) | AckEntry(sender: nat, ack: Ack)

  function Handle(cfg: Config, parts: Parts, e: Entry): Parts
    requires cfg.Valid()
  {
    match e
    case PartEntry(sender, part) => HandlePart(cfg, parts, sender, part).0
    case AckEntry(sender, ack) => HandleAck(cfg, parts, sender, ack).0
  }

  /** The parts of a node that has handled the whole log. */
  function Replay(cfg: Config, log: seq<Entry>): Parts
    requires cfg.Valid()
  {
    if log == [] then map[]
    else
      var last := |log| - 1;
      Handle(cfg, Replay(cfg, log[..last]), log[last])
  }

  datatype System = System(n: nat, threshold: nat, faulty: set<nat>, correct: set<nat>) {
    ghost predicate Valid() {
      && |faulty| <= threshold
      && faulty !! correct
      && Validators(n) == faulty + correct
    }

    function Node(idx: nat): (cfg: Config)
      requires idx < n
      ensures cfg.Valid()
    {
      Config(n, Some(idx), threshold)
    }
  }

  /** Node `idx` has sent this ack when it handled the part at position `j`. */
  ghost predicate AckedAt(cfg: Config, log: seq<Entry>, j: nat, ack: Ack)
    requires cfg.Valid()
  {
    && j < |log| && log[j].PartEntry?
    && HandlePart(cfg, Replay(cfg, log[..j]), log[j].sender, log[j].part).1 == PartValid(Some(ack))
  }

  /** Acks under the number of a correct node were sent by that node, for a part that comes
      earlier in the log. Faulty nodes may contribute anything. */
  ghost predicate IsLog(sys: System, log: seq<Entry>)
    requires sys.Valid()
  {
    forall k :: 0 <= k < |log| && log[k].AckEntry? && log[k].sender in sys.correct ==>
                  IsAckOf(sys, log[..k], log[k].sender, log[k].ack)
  }

  ghost predicate IsAckOf(sys: System, log: seq<Entry>, sender: nat, ack: Ack)
    requires sys.Valid() && sender in sys.correct
  {
    assert sender in Validators(sys.n);
    exists j: nat :: AckedAt(sys.Node(sender), log, j, ack)
  }

  lemma LogPrefix(sys: System, log: seq<Entry>, k: nat)
    requires sys.Valid() && IsLog(sys, log) && k <= |log|
    ensures IsLog(sys, log[..k])
  {
    forall i | 0 <= i < k && log[i].AckEntry? && log[i].sender in sys.correct
      ensures IsAckOf(sys, log[..k][..i], log[i].sender, log[i].ack)
    {
      assert log[..k][..i] == log[..i];
    }
  }

  // ----- What everyone knows -----

  /** Equal except for the values, which only their recipients can read. */
  ghost predicate SamePublic(a: Parts, b: Parts) {
    && a.Keys == b.Keys
    && forall p :: p in a ==> a[p].commit == b[p].commit && a[p].acks == b[p].acks
  }

  /** What handling an entry does to the public part of the state. */
  function PublicEffect(n: nat, parts: Parts, e: Entry): Parts {
    match e
    case PartEntry(sender, part) =>
      if sender < n && |part.rows| == n && sender !in parts then
        parts[sender := ProposalState(part.commit, map[], {})]
      else parts
    case AckEntry(sender, ack) =>
      if sender < n && |ack.values| == n && ack.proposer in parts then
        var part := parts[ack.proposer];
        parts[ack.proposer := part.(acks := part.acks + {sender})]
      else parts
  }

  lemma HandlePartIsPublic(cfg: Config, parts: Parts, sender: nat, part: Part)
    requires cfg.Valid()
    ensures SamePublic(HandlePart(cfg, parts, sender, part).0, PublicEffect(cfg.n, parts, PartEntry(sender, part)))
  {
    hide Row;
  }

  lemma HandleAckIsPublic(cfg: Config, parts: Parts, sender: nat, ack: Ack)
    requires cfg.Valid()
    ensures SamePublic(HandleAck(cfg, parts, sender, ack).0, PublicEffect(cfg.n, parts, AckEntry(sender, ack)))
  {
    hide Evaluate;
    if ack.proposer in parts {
      var acks := parts[ack.proposer].acks;
      assert sender in acks ==> acks + {sender} == acks;
    }
  }

  lemma HandleIsPublic(cfg: Config, parts: Parts, e: Entry)
    requires cfg.Valid()
    ensures SamePublic(Handle(cfg, parts, e), PublicEffect(cfg.n, parts, e))
  {
    hide HandlePart, HandleAck, SamePublic;
    match e {
      case PartEntry(sender, part) => HandlePartIsPublic(cfg, parts, sender, part);
      case AckEntry(sender, ack) => HandleAckIsPublic(cfg, parts, sender, ack);
    }
  }

  lemma HandleSamePublic(c: Config, d: Config, a: Parts, b: Parts, e: Entry)
    requires c.Valid() && d.Valid() && c.n == d.n && SamePublic(a, b)
    ensures SamePublic(Handle(c, a, e), Handle(d, b, e))
  {
    hide Handle;
    HandleIsPublic(c, a, e);
    HandleIsPublic(d, b, e);
    hide SamePublic, PublicEffect;
    SamePublicEffect(c.n, a, b, e);
    PublicTwice(Handle(c, a, e), PublicEffect(c.n, a, e), PublicEffect(c.n, b, e), Handle(d, b, e));
  }

  lemma SamePublicEffect(n: nat, a: Parts, b: Parts, e: Entry)
    requires SamePublic(a, b)
    ensures SamePublic(PublicEffect(n, a, e), PublicEffect(n, b, e))
  {
  }

  lemma PublicTwice(a: Parts, b: Parts, c: Parts, d: Parts)
    requires SamePublic(a, b) && SamePublic(b, c) && SamePublic(d, c)
    ensures SamePublic(a, d)
  {
  }

  /** Nodes with the same log agree on everything public, whatever their own number, and
      also if they are observers: on the complete parts, and on the public key set. */
  lemma PublicAgreement(c: Config, d: Config, log: seq<Entry>, bound: nat)
    requires c.Valid() && d.Valid() && c.n == d.n && c.threshold == d.threshold
    ensures SamePublic(Replay(c, log), Replay(d, log))
    ensures CompleteParts(Replay(c, log), c.threshold) == CompleteParts(Replay(d, log), d.threshold)
    ensures PublicPoly(Replay(c, log), c.threshold, bound) == PublicPoly(Replay(d, log), d.threshold, bound)
  {
    SamePublicReplay(c, d, log);
    SamePublicPoly(Replay(c, log), Replay(d, log), c.threshold, bound);
  }

  lemma {:induction false} SamePublicReplay(c: Config, d: Config, log: seq<Entry>)
    requires c.Valid() && d.Valid() && c.n == d.n
    ensures SamePublic(Replay(c, log), Replay(d, log))
  {
    hide SamePublic, Handle;
    if log == [] {
      assert SamePublic(map[], map[]) by {
        EmptySamePublic();
      }
    } else {
      var last := |log| - 1;
      SamePublicReplay(c, d, log[..last]);
      HandleSamePublic(c, d, Replay(c, log[..last]), Replay(d, log[..last]), log[last]);
    }
  }

  lemma EmptySamePublic()
    ensures SamePublic(map[], map[])
  {
  }

  lemma {:induction false} SamePublicPoly(a: Parts, b: Parts, threshold: nat, bound: nat)
    requires SamePublic(a, b)
    ensures CompleteParts(a, threshold) == CompleteParts(b, threshold)
    ensures PublicPoly(a, threshold, bound) == PublicPoly(b, threshold, bound)
  {
    hide Row, Add;
    if bound > 0 {
      SamePublicPoly(a, b, threshold, bound - 1);
    }
  }

  // ----- What stays -----

  /** Once handled, a part keeps its commitment, and its acks are never forgotten. */
  ghost predicate Keeps(a: Parts, b: Parts) {
    forall p :: p in a ==> p in b && b[p].commit == a[p].commit && a[p].acks <= b[p].acks
  }

  lemma HandleKeeps(cfg: Config, parts: Parts, e: Entry)
    requires cfg.Valid()
    ensures Keeps(parts, Handle(cfg, parts, e))
  {
    hide Row, Evaluate;
  }

  lemma {:induction false} ReplayKeeps(cfg: Config, log: seq<Entry>, k: nat)
    requires cfg.Valid() && k <= |log|
    ensures Keeps(Replay(cfg, log[..k]), Replay(cfg, log))
  {
    hide Handle;
    if k == |log| {
      assert log[..k] == log;
    } else {
      var last := |log| - 1;
      ReplayKeeps(cfg, log[..last], k);
      assert log[..last][..k] == log[..k];
      HandleKeeps(cfg, Replay(cfg, log[..last]), log[last]);
    }
  }

  lemma ReplayStep(cfg: Config, log: seq<Entry>, k: nat)
    requires cfg.Valid() && k < |log|
    ensures Replay(cfg, log[..k + 1]) == Handle(cfg, Replay(cfg, log[..k]), log[k])
  {
    assert log[..k + 1][..k] == log[..k];
  }

  // ----- Values -----

  /** All values of node `idx` lie on its row of the committed polynomial. */
  ghost predicate ValuesOnRow(n: nat, idx: nat, part: ProposalState) {
    && (forall s :: s in part.acks ==> s < n)
    && (forall k :: k in part.values ==> 0 < k <= n && part.values[k] == Eval(Row(part.commit, Point(idx)), k as real))
  }

  ghost predicate AllOnRow(n: nat, idx: nat, parts: Parts) {
    forall p :: p in parts ==> ValuesOnRow(n, idx, parts[p])
  }

  lemma HandleOnRow(cfg: Config, parts: Parts, e: Entry)
    requires cfg.Valid() && cfg.ourIdx.Some? && AllOnRow(cfg.n, cfg.ourIdx.value, parts)
    ensures AllOnRow(cfg.n, cfg.ourIdx.value, Handle(cfg, parts, e))
  {
    hide Row, Eval;
  }

  lemma {:induction false} ReplayOnRow(cfg: Config, log: seq<Entry>)
    requires cfg.Valid() && cfg.ourIdx.Some?
    ensures AllOnRow(cfg.n, cfg.ourIdx.value, Replay(cfg, log))
  {
    if log != [] {
      hide Handle, ValuesOnRow;
      var last := |log| - 1;
      ReplayOnRow(cfg, log[..last]);
      HandleOnRow(cfg, Replay(cfg, log[..last]), log[last]);
    }
  }

  /** What a node acks, it has verified against the commitment that everyone has stored. */
  lemma AckIsVerified(cfg: Config, log: seq<Entry>, j: nat, ack: Ack)
    requires cfg.Valid() && cfg.ourIdx.Some? && AckedAt(cfg, log, j, ack)
    ensures var parts := Replay(cfg, log);
            && ack.proposer in parts
            && ack.values == ValueCiphers(Row(parts[ack.proposer].commit, Point(cfg.ourIdx.value)), cfg.n)
  {
    hide Row, Eval, ValueCiphers, Replay;
    ReplayStep(cfg, log, j);
    ReplayKeeps(cfg, log, j + 1);
  }

  /** An ack of a correct node is accepted by every other one, and its value is kept. */
  lemma CorrectAckAccepted(sys: System, log: seq<Entry>, idx: nat, sender: nat, ack: Ack)
    requires sys.Valid() && idx < sys.n && sender in sys.correct && IsAckOf(sys, log, sender, ack)
    ensures var parts := Replay(sys.Node(idx), log);
            var r := HandleAck(sys.Node(idx), parts, sender, ack);
            && r.1 == AckValid
            && ack.proposer in parts
            && (sender !in parts[ack.proposer].acks ==> sender + 1 in r.0[ack.proposer].values)
  {
    hide Replay, Row, Eval, AckedAt;
    assert sender in Validators(sys.n);
    var j: nat :| AckedAt(sys.Node(sender), log, j, ack);
    AckIsVerified(sys.Node(sender), log, j, ack);
    SamePublicReplay(sys.Node(idx), sys.Node(sender), log);
    Symmetric(Replay(sys.Node(idx), log)[ack.proposer].commit, Point(idx), Point(sender));
  }

  /** Every ack of a correct node has brought its value. */
  ghost predicate CorrectValues(correct: set<nat>, part: ProposalState) {
    forall s :: s in correct && s in part.acks ==> s + 1 in part.values
  }

  ghost predicate AllCorrectValues(correct: set<nat>, parts: Parts) {
    forall p :: p in parts ==> CorrectValues(correct, parts[p])
  }

  lemma {:induction false} ReplayCorrectValues(sys: System, log: seq<Entry>, idx: nat)
    requires sys.Valid() && IsLog(sys, log) && idx < sys.n
    ensures AllCorrectValues(sys.correct, Replay(sys.Node(idx), log))
  {
    if log != [] {
      hide Handle, IsLog, AllCorrectValues;
      var last := |log| - 1;
      LogPrefix(sys, log, last);
      ReplayCorrectValues(sys, log[..last], idx);
      StepCorrectValues(sys, log, idx);
    }
  }

  lemma StepCorrectValues(sys: System, log: seq<Entry>, idx: nat)
    requires sys.Valid() && IsLog(sys, log) && idx < sys.n && log != []
    requires var parts := Replay(sys.Node(idx), log[..|log| - 1]);
             AllCorrectValues(sys.correct, parts)
    ensures var parts := Replay(sys.Node(idx), log[..|log| - 1]);
            AllCorrectValues(sys.correct, Handle(sys.Node(idx), parts, log[|log| - 1]))
  {
    hide Replay, HandlePart, HandleAck, IsAckOf, AllCorrectValues;
    var last := |log| - 1;
    var parts := Replay(sys.Node(idx), log[..last]);
    match log[last] {
      case PartEntry(sender, part) =>
        HandlePartValues(sys.Node(idx), sys.correct, parts, sender, part);
      case AckEntry(sender, ack) =>
        if sender in sys.correct {
          CorrectAckAccepted(sys, log[..last], idx, sender, ack);
          AckKeepsPart(sys.Node(idx), parts, sender, ack);
        }
        HandleAckValues(sys.Node(idx), sys.correct, parts, sender, ack);
    }
  }

  lemma AckKeepsPart(cfg: Config, parts: Parts, sender: nat, ack: Ack)
    requires cfg.Valid()
    ensures HandleAck(cfg, parts, sender, ack).0.Keys == parts.Keys
  {
    hide Evaluate;
  }

  lemma HandlePartValues(cfg: Config, correct: set<nat>, parts: Parts, sender: nat, part: Part)
    requires cfg.Valid() && AllCorrectValues(correct, parts)
    ensures AllCorrectValues(correct, HandlePart(cfg, parts, sender, part).0)
  {
    hide Row;
  }

  lemma HandleAckValues(cfg: Config, correct: set<nat>, parts: Parts, sender: nat, ack: Ack)
    requires cfg.Valid() && AllCorrectValues(correct, parts)
    requires sender in correct ==>
               var r := HandleAck(cfg, parts, sender, ack);
               ack.proposer in parts && ack.proposer in r.0
               && (sender !in parts[ack.proposer].acks ==> sender + 1 in r.0[ack.proposer].values)
    ensures AllCorrectValues(correct, HandleAck(cfg, parts, sender, ack).0)
  {
    hide Evaluate;
  }

  lemma {:induction false} ShiftedSize(s: set<nat>, t: set<nat>)
    requires forall i :: i in s ==> i + 1 in t
    ensures |s| <= |t|
  {
    if s != {} {
      var i :| i in s;
      ShiftedSize(s - {i}, t - {i + 1});
    }
  }

  /** A complete part has brought more than `threshold` verified values to every node. */
  lemma EnoughValues(sys: System, log: seq<Entry>, idx: nat, p: nat)
    requires sys.Valid() && IsLog(sys, log) && idx < sys.n
    requires p in CompleteParts(Replay(sys.Node(idx), log), sys.threshold)
    ensures |Replay(sys.Node(idx), log)[p].values| > sys.threshold
    ensures ValuesOnRow(sys.n, idx, Replay(sys.Node(idx), log)[p])
  {
    hide Replay, IsLog, Row, Eval;
    ReplayOnRow(sys.Node(idx), log);
    ReplayCorrectValues(sys, log, idx);
    var part := Replay(sys.Node(idx), log)[p];
    var good := part.acks - sys.faulty;
    SubsetSize(part.acks, good + sys.faulty);
    forall s | s in good ensures s + 1 in part.values.Keys {
      assert s in Validators(sys.n);
    }
    ShiftedSize(good, part.values.Keys);
  }

  // ----- Samples -----

  function KeysBelow(values: map<nat, real>, bound: nat): set<nat> {
    set k | k in values && k < bound
  }

  /** The first values are samples at different points, as many as there are or as asked for. */
  lemma {:induction false} FirstSamplesAre(values: map<nat, real>, bound: nat, count: nat)
    ensures var s := FirstSamples(values, bound, count);
            && |s| == (if |KeysBelow(values, bound)| < count then |KeysBelow(values, bound)| else count)
            && Distinct(Points(s))
            && (forall i :: 0 <= i < |s| ==> 0.0 <= s[i].x < bound as real)
            && (forall i :: 0 <= i < |s| ==> s[i].x.Floor in values && s[i].x == s[i].x.Floor as real
                                             && s[i].y == values[s[i].x.Floor])
  {
    if bound == 0 {
      assert KeysBelow(values, bound) == {};
    } else {
      var k := bound - 1;
      FirstSamplesAre(values, k, count);
      if k in values {
        assert KeysBelow(values, bound) == KeysBelow(values, k) + {k};
        var before := FirstSamples(values, k, count);
        DistinctExtends(before, Sample(k as real, values[k]));
      } else {
        assert KeysBelow(values, bound) == KeysBelow(values, k);
      }
    }
  }

  lemma DistinctExtends(samples: seq<Sample>, s: Sample)
    requires Distinct(Points(samples)) && forall i :: 0 <= i < |samples| ==> samples[i].x < s.x
    ensures Distinct(Points(samples + [s]))
  {
    assert Points(samples + [s]) == Points(samples) + [s.x];
    forall i | 0 <= i < |samples| ensures Points(samples)[i] != s.x {
      assert samples[i].x < s.x;
    }
  }

  // ----- Columns -----

  /** At zero and at the points of all nodes, `q` is `p`. */
  ghost predicate Fits(p: Poly, q: Poly, n: nat) {
    forall k: nat :: k <= n ==> AgreeAt(p, q, k)
  }

  /** The row of node `idx` looks like a polynomial of degree `threshold` at these points. */
  ghost predicate RowIsLow(c: Bivar, n: nat, threshold: nat, idx: nat) {
    exists p: Poly :: |p| <= threshold + 1 && Fits(p, Row(c, Point(idx)), n)
  }

  /** So do the rows of all nodes. */
  ghost predicate IsLow(c: Bivar, n: nat, threshold: nat) {
    forall idx: nat :: idx < n ==> RowIsLow(c, n, threshold, idx)
  }

  lemma DegreeIsLow(c: Bivar, n: nat, threshold: nat)
    requires Degree(c) <= threshold
    ensures IsLow(c, n, threshold)
  {
    hide Row, Eval;
    forall idx: nat | idx < n ensures RowIsLow(c, n, threshold, idx) {
      assert Fits(Row(c, Point(idx)), Row(c, Point(idx)), n);
    }
  }

  /** Whatever polynomial of the right degree a node's values lie on, that is what the node
      gets at zero. */
  lemma ColumnFits(part: ProposalState, n: nat, threshold: nat, p: Poly)
    requires |part.values| > threshold && |p| <= threshold + 1
    requires forall k :: k in part.values ==> k <= n && part.values[k] == Eval(p, k as real)
    ensures ColumnAtZero(part, n, threshold) == Eval(p, 0.0)
  {
    hide Eval, Interpolate, FirstSamples, Distinct;
    var samples := FirstSamples(part.values, n + 1, threshold + 1);
    FirstSamplesAre(part.values, n + 1, threshold + 1);
    assert KeysBelow(part.values, n + 1) == part.values.Keys;
    InterpolationIsUnique(p, samples, 0.0);
  }

  /** From the values a node has, it gets its column of the part at zero. */
  lemma ColumnIsCommitted(part: ProposalState, n: nat, idx: nat, threshold: nat)
    requires ValuesOnRow(n, idx, part) && |part.values| > threshold && RowIsLow(part.commit, n, threshold, idx)
    ensures ColumnAtZero(part, n, threshold) == Eval(Row(part.commit, 0.0), Point(idx))
  {
    hide Eval, Row, ColumnAtZero;
    var row := Row(part.commit, Point(idx));
    var p: Poly :| |p| <= threshold + 1 && Fits(p, row, n);
    forall k | k in part.values ensures part.values[k] == Eval(p, k as real) {
      assert AgreeAt(p, row, k);
    }
    ColumnFits(part, n, threshold, p);
    assert AgreeAt(p, row, 0);
    Symmetric(part.commit, Point(idx), 0.0);
  }

  // ----- Key shares -----

  /** The complete parts are committed to with the degree that was agreed on. The code does
      not check this. */
  ghost predicate DegreesOk(parts: Parts, threshold: nat) {
    forall p :: IsCompleteAt(parts, threshold, p) ==> Degree(parts[p].commit) <= threshold
  }

  /** The complete parts are what they should be, as far as the points of the nodes tell. */
  ghost predicate AllLow(parts: Parts, n: nat, threshold: nat) {
    forall p :: IsCompleteAt(parts, threshold, p) ==> IsLow(parts[p].commit, n, threshold)
  }

  lemma DegreesAreLow(parts: Parts, n: nat, threshold: nat)
    requires DegreesOk(parts, threshold)
    ensures AllLow(parts, n, threshold)
  {
    hide IsLow;
    forall p | IsCompleteAt(parts, threshold, p) ensures IsLow(parts[p].commit, n, threshold) {
      DegreeIsLow(parts[p].commit, n, threshold);
    }
  }

  lemma {:induction false} ShareOnPublicPoly(sys: System, log: seq<Entry>, idx: nat, bound: nat)
    requires sys.Valid() && IsLog(sys, log) && idx < sys.n
    requires AllLow(Replay(sys.Node(idx), log), sys.n, sys.threshold)
    ensures var parts := Replay(sys.Node(idx), log);
            SecretShare(parts, sys.n, sys.threshold, bound)
            == Eval(PublicPoly(parts, sys.threshold, bound), Point(idx))
  {
    if bound > 0 {
      hide Replay, IsLog, Row, Eval, Add, ColumnAtZero, RowIsLow;
      ShareOnPublicPoly(sys, log, idx, bound - 1);
      var parts := Replay(sys.Node(idx), log);
      var p := bound - 1;
      if IsCompleteAt(parts, sys.threshold, p) {
        EnoughValues(sys, log, idx, p);
        assert RowIsLow(parts[p].commit, sys.n, sys.threshold, idx);
        ColumnIsCommitted(parts[p], sys.n, idx, sys.threshold);
        EvalAdd(PublicPoly(parts, sys.threshold, p), Row(parts[p].commit, 0.0), Point(idx));
      }
    } else {
      assert Eval([], Point(idx)) == 0.0;
    }
  }

  lemma {:induction false} PublicPolyDegree(parts: Parts, threshold: nat, bound: nat)
    requires DegreesOk(parts, threshold)
    ensures |PublicPoly(parts, threshold, bound)| <= threshold + 1
  {
    if bound > 0 {
      hide Row, Add;
      PublicPolyDegree(parts, threshold, bound - 1);
    }
  }

  function Share(sys: System, log: seq<Entry>, idx: nat): real
    requires idx < sys.n
  {
    SecretShare(Replay(sys.Node(idx), log), sys.n, sys.threshold, sys.n)
  }

  /** The public key set as anyone can compute it, an observer for example. */
  function PublicKey(sys: System, log: seq<Entry>): Poly {
    PublicPoly(Replay(Config(sys.n, None, sys.threshold), log), sys.threshold, sys.n)
  }

  ghost predicate SamePublicParts(a: Parts, b: Parts, n: nat, threshold: nat) {
    && (AllLow(a, n, threshold) <==> AllLow(b, n, threshold))
    && (DegreesOk(a, threshold) <==> DegreesOk(b, threshold))
  }

  lemma PublicConditions(a: Parts, b: Parts, n: nat, threshold: nat)
    requires SamePublic(a, b)
    ensures SamePublicParts(a, b, n, threshold)
  {
    hide IsLow;
    forall p ensures IsCompleteAt(a, threshold, p) == IsCompleteAt(b, threshold, p) {
    }
  }

  /** For every log: the secret key share of every validator matches the public key set. */
  lemma KeyShareCorrectness(sys: System, log: seq<Entry>, idx: nat)
    requires sys.Valid() && IsLog(sys, log) && idx < sys.n
    requires AllLow(Replay(Config(sys.n, None, sys.threshold), log), sys.n, sys.threshold)
    ensures Share(sys, log, idx) == Eval(PublicKey(sys, log), Point(idx))
  {
    hide Replay, IsLog, Eval, SecretShare, PublicPoly, AllLow, DegreesOk;
    PublicAgreement(sys.Node(idx), Config(sys.n, None, sys.threshold), log, sys.n);
    PublicConditions(Replay(sys.Node(idx), log), Replay(Config(sys.n, None, sys.threshold), log), sys.n, sys.threshold);
    ShareOnPublicPoly(sys, log, idx, sys.n);
  }

  // ----- Completing the parts of correct nodes -----

  /** The part of a correct node is valid for everyone, and every validator acks it. */
  lemma CorrectPartAccepted(cfg: Config, parts: Parts, sender: nat, poly: Bivar)
    requires cfg.Valid() && sender < cfg.n
    requires sender in parts ==> parts[sender].commit == poly
    ensures var r := HandlePart(cfg, parts, sender, NewPart(cfg, poly));
            && r.1.PartValid? && sender in r.0 && r.0[sender].commit == poly
            && (cfg.ourIdx.Some? && sender !in parts ==>
                  r.1.ack == Some(Ack(sender, ValueCiphers(Row(poly, Point(cfg.ourIdx.value)), cfg.n))))
  {
    hide Row, ValueCiphers;
  }

  /** A part with the acks of more than `2 threshold` correct nodes in the log is complete
      for everyone. */
  lemma AckedPartCompletes(sys: System, log: seq<Entry>, cfg: Config, p: nat, senders: set<nat>)
    requires sys.Valid() && IsLog(sys, log)
    requires cfg.Valid() && cfg.n == sys.n && cfg.threshold == sys.threshold
    requires senders <= sys.correct && |senders| > 2 * sys.threshold
    requires forall s :: s in senders ==> HasAck(log, s, p)
    ensures p in CompleteParts(Replay(cfg, log), sys.threshold)
  {
    hide Replay, IsLog, HasAck;
    forall s | s in senders ensures p in Replay(cfg, log) && s in Replay(cfg, log)[p].acks {
      AckIsCounted(sys, log, cfg, p, s);
    }
    var s :| s in senders;
    assert p in Replay(cfg, log);
    SubsetSize(senders, Replay(cfg, log)[p].acks);
  }

  ghost predicate HasAck(log: seq<Entry>, sender: nat, p: nat) {
    exists k :: 0 <= k < |log| && log[k].AckEntry? && log[k].sender == sender && log[k].ack.proposer == p
  }

  lemma AckIsCounted(sys: System, log: seq<Entry>, cfg: Config, p: nat, sender: nat)
    requires sys.Valid() && IsLog(sys, log)
    requires cfg.Valid() && cfg.n == sys.n
    requires sender in sys.correct && HasAck(log, sender, p)
    ensures p in Replay(cfg, log) && sender in Replay(cfg, log)[p].acks
  {
    hide Replay, AckedAt, Row, Eval;
    var k :| 0 <= k < |log| && log[k].AckEntry? && log[k].sender == sender && log[k].ack.proposer == p;
    assert sender in Validators(sys.n);
    var ack := log[k].ack;
    assert IsAckOf(sys, log[..k], sender, ack);
    var j: nat :| AckedAt(sys.Node(sender), log[..k], j, ack);
    AckIsVerified(sys.Node(sender), log[..k], j, ack);
    SamePublicReplay(cfg, sys.Node(sender), log[..k]);
    ReplayStep(cfg, log, k);
    ReplayKeeps(cfg, log, k + 1);
  }
}
