/** Synchronous key generation as it is implemented, by updating its parts in place. */
module SyncKeyGenObject {
  import opened Options
  import opened Polynomials
  import opened SyncKeyGenSpec

  class SyncKeyGen {
    const cfg: Config
    var parts: Parts

    /** Only known nodes have parts. */
    ghost predicate Valid()
      reads this
    {
      cfg.Valid() && forall idx :: idx in parts ==> idx < cfg.n
    }

    constructor (cfg: Config)
      requires cfg.Valid()
      ensures Valid() && this.cfg == cfg && parts == map[]
    {
      this.cfg := cfg;
      this.parts := map[];
    }

    method HandlePart(sender: nat, part: Part) returns (outcome: PartOutcome)
      requires Valid()
      modifies this
      ensures Valid()
      ensures (parts, outcome) == SyncKeyGenSpec.HandlePart(cfg, old(parts), sender, part)
    {
      if sender >= cfg.n {
        return PartUnknownSender;
      }
      var row, fault := HandlePartOrFault(sender, part);
      if fault.Some? {
        return PartInvalid(fault.value);
      }
      if row.None? {
        return PartValid(None);
      }
      // Everyone gets the value of our row at its own point.
      var values: seq<Ciphertext> := [];
      while |values| < cfg.n
        invariant |values| <= cfg.n
        invariant values == ValueCiphers(row.value, cfg.n)[..|values|]
      {
        values := values + [Ciphertext(|values|, ValueData(Eval(row.value, Point(|values|))))];
      }
      assert values == ValueCiphers(row.value, cfg.n);
      outcome := PartValid(Some(Ack(sender, values)));
    }

    method HandlePartOrFault(sender: nat, part: Part) returns (row: Option<Poly>, fault: Option<PartFault>)
      requires Valid() && sender < cfg.n
      modifies this
      ensures Valid()
      ensures match SyncKeyGenSpec.HandlePartOrFault(cfg, old(parts), sender, part)
              case PartOk(parts1, row1) => parts == parts1 && row == row1 && fault == None
              case PartErr(parts1, fault1) => parts == parts1 && fault == Some(fault1)
    {
      row, fault := None, None;
      if |part.rows| != cfg.n {
        return None, Some(RowCount);
      }
      if sender in parts {
        if parts[sender].commit != part.commit {
          return None, Some(MultipleParts);
        }
        return;
      }
      parts := parts[sender := ProposalState(part.commit, map[], {})];
      if cfg.ourIdx.None? {
        return; // an observer has no row
      }
      var idx := cfg.ourIdx.value;
      var commitRow := Row(part.commit, Point(idx));
      // From here on, `parts` keeps the commitment even if our row turns out to be bad.
      var plain := Decrypt(idx, part.rows[idx]);
      if plain.None? {
        return None, Some(DecryptRow);
      }
      if !plain.value.RowData? {
        return None, Some(DeserializeRow);
      }
      if plain.value.row != commitRow {
        return None, Some(RowCommitment);
      }
      row := Some(plain.value.row);
    }

    method HandleAck(sender: nat, ack: Ack) returns (outcome: AckOutcome)
      requires Valid()
      modifies this
      ensures Valid()
      ensures (parts, outcome) == SyncKeyGenSpec.HandleAck(cfg, old(parts), sender, ack)
    {
      if sender >= cfg.n {
        return AckUnknownSender;
      }
      var fault := HandleAckOrFault(sender, ack);
      outcome := if fault.Some? then AckInvalid(fault.value) else AckValid;
    }

    method HandleAckOrFault(sender: nat, ack: Ack) returns (fault: Option<AckFault>)
      requires Valid() && sender < cfg.n
      modifies this
      ensures Valid()
      ensures AckResult(parts, fault) == SyncKeyGenSpec.HandleAckOrFault(cfg, old(parts), sender, ack)
    {
      fault := None;
      if |ack.values| != cfg.n {
        return Some(ValueCount);
      }
      if ack.proposer !in parts {
        return Some(MissingPart);
      }
      var part := parts[ack.proposer];
      if sender in part.acks {
        return;
      }
      part := part.(acks := part.acks + {sender});
      parts := parts[ack.proposer := part];
      if cfg.ourIdx.None? {
        return; // an observer has no value
      }
      var idx := cfg.ourIdx.value;
      // From here on, the ack counts even if our value turns out to be bad.
      var plain := Decrypt(idx, ack.values[idx]);
      if plain.None? {
        return Some(DecryptValue);
      }
      if !plain.value.ValueData? {
        return Some(DeserializeValue);
      }
      if Evaluate(part.commit, Point(idx), Point(sender)) != plain.value.value {
        return Some(ValueCommitment);
      }
      part := part.(values := part.values[sender + 1 := plain.value.value]);
      parts := parts[ack.proposer := part];
      assert parts == old(parts)[ack.proposer := part];
    }

    method IsNodeReady(proposer: nat) returns (ready: bool)
      requires Valid()
      ensures ready <==> proposer in CompleteParts(parts, cfg.threshold)
    {
      ready := proposer < cfg.n && proposer in parts && parts[proposer].IsComplete(cfg.threshold);
    }

    method CountComplete() returns (count: nat)
      requires Valid()
      ensures count == |CompleteParts(parts, cfg.threshold)|
    {
      count := 0;
      var idx := 0;
      ghost var seen: set<nat> := {};
      while idx < cfg.n
        invariant idx <= cfg.n
        invariant seen == (set i | i in CompleteParts(parts, cfg.threshold) && i < idx)
        invariant count == |seen|
      {
        if idx in parts && parts[idx].IsComplete(cfg.threshold) {
          count := count + 1;
          seen := seen + {idx};
        }
        idx := idx + 1;
      }
      assert seen == CompleteParts(parts, cfg.threshold);
    }

    method IsReady() returns (ready: bool)
      requires Valid()
      ensures ready <==> |CompleteParts(parts, cfg.threshold)| > cfg.threshold
    {
      var count := CountComplete();
      ready := count > cfg.threshold;
    }

    /** Adds up the complete parts. */
    method Generate() returns (pkCommit: Poly, skVal: Option<real>)
      requires Valid()
      ensures pkCommit == PublicPoly(parts, cfg.threshold, cfg.n)
      ensures skVal == if cfg.ourIdx.Some? then Some(SecretShare(parts, cfg.n, cfg.threshold, cfg.n)) else None
    {
      pkCommit := [];
      skVal := if cfg.ourIdx.Some? then Some(0.0) else None;
      var idx := 0;
      while idx < cfg.n
        invariant idx <= cfg.n
        invariant pkCommit == PublicPoly(parts, cfg.threshold, idx)
        invariant skVal == if cfg.ourIdx.Some? then Some(SecretShare(parts, cfg.n, cfg.threshold, idx)) else None
      {
        if idx in parts && parts[idx].IsComplete(cfg.threshold) {
          pkCommit := Add(pkCommit, Row(parts[idx].commit, 0.0));
          if skVal.Some? {
            var samples := TakeValues(parts[idx].values);
            skVal := Some(skVal.value + Eval(Interpolate(samples), 0.0));
          }
        }
        idx := idx + 1;
      }
    }

    /** The first `threshold + 1` values. */
    method TakeValues(values: map<nat, real>) returns (samples: seq<Sample>)
      ensures samples == FirstSamples(values, cfg.n + 1, cfg.threshold + 1)
    {
      samples := [];
      var key := 0;
      while key <= cfg.n
        invariant key <= cfg.n + 1
        invariant samples == FirstSamples(values, key, cfg.threshold + 1)
      {
        if |samples| < cfg.threshold + 1 && key in values {
          samples := samples + [Sample(key as real, values[key])];
        }
        key := key + 1;
      }
    }
  }
}
