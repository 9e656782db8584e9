/** Synchronous key generation as functions of the parts handled so far.

    Cryptography is ideal: a commitment is the polynomial itself, and a ciphertext can be
    decrypted by its recipient and by nobody else. */
module SyncKeyGenSpec {
  import opened Options
  import opened Polynomials

  /** What a plaintext deserializes to. */
  datatype Plaintext = RowData(row: Poly) | ValueData(value: real) | Junk

  datatype Ciphertext = Ciphertext(recipient: nat, plaintext: Plaintext)

  datatype Part = Part(commit: Bivar, rows: seq<Ciphertext>)

  datatype Ack = Ack(proposer: nat, values: seq<Ciphertext>)

  datatype PartFault = RowCount | MultipleParts | DecryptRow | DeserializeRow | RowCommitment

  datatype AckFault = ValueCount | MissingPart | DecryptValue | DeserializeValue | ValueCommitment

  datatype PartOutcome = PartValid(ack: Option<Ack>) | PartInvalid(partFault: PartFault) | PartUnknownSender

  datatype AckOutcome = AckValid | AckInvalid(ackFault: AckFault) | AckUnknownSender

  /** Nodes are numbered by their position among the sorted public keys. Observers have
      no index. */
  datatype Config = Config(n: nat, ourIdx: Option<nat>, threshold: nat) {
    predicate Valid() {
      ourIdx.Some? ==> ourIdx.value < n
    }
  }

  datatype ProposalState = ProposalState(commit: Bivar, values: map<nat, real>, acks: set<nat>) {
    predicate IsComplete(threshold: nat) {
      |acks| > 2 * threshold
    }
  }

  type Parts = map<nat, ProposalState>

  /** Where the polynomials are evaluated for a node. Zero is where the secrets are. */
  function Point(idx: nat): real {
    (idx + 1) as real
  }

  function Decrypt(idx: nat, c: Ciphertext): Option<Plaintext> {
    if c.recipient == idx then Some(c.plaintext) else None
  }

  function RowCiphers(poly: Bivar, n: nat): (r: seq<Ciphertext>)
    ensures |r| == n
  {
    seq(n, idx requires 0 <= idx < n => Ciphertext(idx, RowData(Row(poly, Point(idx)))))
  }

  /** The part of a node that has chosen this polynomial. */
  function NewPart(cfg: Config, poly: Bivar): Part {
    Part(poly, RowCiphers(poly, cfg.n))
  }

  function ValueCiphers(row: Poly, n: nat): (r: seq<Ciphertext>)
    ensures |r| == n
  {
    seq(n, idx requires 0 <= idx < n => Ciphertext(idx, ValueData(Eval(row, Point(idx)))))
  }

  datatype PartResult = PartOk(parts: Parts, row: Option<Poly>) | PartErr(parts: Parts, fault: PartFault)

  function HandlePartOrFault(cfg: Config, parts: Parts, sender: nat, part: Part): PartResult
    requires cfg.Valid()
  {
    if |part.rows| != cfg.n then PartErr(parts, RowCount)
    else if sender in parts then
      if parts[sender].commit != part.commit then PartErr(parts, MultipleParts) else PartOk(parts, None)
    else
      var parts1 := parts[sender := ProposalState(part.commit, map[], {})];
      if cfg.ourIdx.None? then PartOk(parts1, None)
      else
        var idx := cfg.ourIdx.value;
        match Decrypt(idx, part.rows[idx])
        case None => PartErr(parts1, DecryptRow)
        case Some(plain) =>
          if !plain.RowData? then PartErr(parts1, DeserializeRow)
          else if plain.row != Row(part.commit, Point(idx)) then PartErr(parts1, RowCommitment)
          else PartOk(parts1, Some(plain.row))
  }

  function HandlePart(cfg: Config, parts: Parts, sender: nat, part: Part): (Parts, PartOutcome)
    requires cfg.Valid()
  {
    if sender >= cfg.n then (parts, PartUnknownSender)
    else
      match HandlePartOrFault(cfg, parts, sender, part)
      case PartErr(parts1, fault) => (parts1, PartInvalid(fault))
      case PartOk(parts1, None) => (parts1, PartValid(None))
      case PartOk(parts1, Some(row)) => (parts1, PartValid(Some(Ack(sender, ValueCiphers(row, cfg.n)))))
  }

  datatype AckResult = AckResult(parts: Parts, fault: Option<AckFault>)

  function HandleAckOrFault(cfg: Config, parts: Parts, sender: nat, ack: Ack): AckResult
    requires cfg.Valid()
  {
    if |ack.values| != cfg.n then AckResult(parts, Some(ValueCount))
    else if ack.proposer !in parts then AckResult(parts, Some(MissingPart))
    else
      var part := parts[ack.proposer];
      if sender in part.acks then AckResult(parts, None)
      else
        var part1 := part.(acks := part.acks + {sender});
        var parts1 := parts[ack.proposer := part1];
        if cfg.ourIdx.None? then AckResult(parts1, None)
        else
          var idx := cfg.ourIdx.value;
          match Decrypt(idx, ack.values[idx])
          case None => AckResult(parts1, Some(DecryptValue))
          case Some(plain) =>
            if !plain.ValueData? then AckResult(parts1, Some(DeserializeValue))
            else if Evaluate(part.commit, Point(idx), Point(sender)) != plain.value then
              AckResult(parts1, Some(ValueCommitment))
            else
              var part2 := part1.(values := part1.values[sender + 1 := plain.value]);
              AckResult(parts[ack.proposer := part2], None)
  }

  function HandleAck(cfg: Config, parts: Parts, sender: nat, ack: Ack): (Parts, AckOutcome)
    requires cfg.Valid()
  {
    if sender >= cfg.n then (parts, AckUnknownSender)
    else
      var r := HandleAckOrFault(cfg, parts, sender, ack);
      (r.parts, if r.fault.Some? then AckInvalid(r.fault.value) else AckValid)
  }

  // ----- Generating the keys -----

  predicate IsCompleteAt(parts: Parts, threshold: nat, idx: nat) {
    idx in parts && parts[idx].IsComplete(threshold)
  }

  function CompleteParts(parts: Parts, threshold: nat): set<nat> {
    set idx | idx in parts && IsCompleteAt(parts, threshold, idx)
  }

  /** The first `count` values below `bound`, by ascending keys. */
  function FirstSamples(values: map<nat, real>, bound: nat, count: nat): seq<Sample> {
    if bound == 0 then []
    else
      var before := FirstSamples(values, bound - 1, count);
      if |before| < count && bound - 1 in values then before + [Sample((bound - 1) as real, values[bound - 1])]
      else before
  }

  /** Our column of a part at zero, from the first `threshold + 1` values. */
  function ColumnAtZero(part: ProposalState, n: nat, threshold: nat): real {
    Eval(Interpolate(FirstSamples(part.values, n + 1, threshold + 1)), 0.0)
  }

  /** The sum of the public rows of the complete parts below `bound`. */
  function PublicPoly(parts: Parts, threshold: nat, bound: nat): Poly {
    if bound == 0 then []
    else
      var before := PublicPoly(parts, threshold, bound - 1);
      if IsCompleteAt(parts, threshold, bound - 1) then Add(before, Row(parts[bound - 1].commit, 0.0)) else before
  }

  function SecretShare(parts: Parts, n: nat, threshold: nat, bound: nat): real {
    if bound == 0 then 0.0
    else
      var before := SecretShare(parts, n, threshold, bound - 1);
      if IsCompleteAt(parts, threshold, bound - 1) then
        before + ColumnAtZero(parts[bound - 1], n, threshold)
      else before
  }
}
