/** Which parts and acks of the key generation are valid, and what is wrong with the others. */
module SyncKeyGenFaults {
  import opened Options
  import opened Polynomials
  import opened SyncKeyGenSpec

  /** The row that node `idx` finds in this part, if it can read any. */
  predicate HasRow(part: Part, idx: nat, row: Poly) {
    idx < |part.rows| && part.rows[idx].recipient == idx && part.rows[idx].plaintext == RowData(row)
  }

  /** A part is valid for a node exactly if it has as many rows as there are nodes, does not
      contradict an earlier part of the same node, and has the row that its commitment promises to
      us. It is answered exactly the first time, and by validators. */
  lemma PartValidIff(cfg: Config, parts: Parts, sender: nat, part: Part)
    requires cfg.Valid() && sender < cfg.n
    ensures var (after, r) := HandlePart(cfg, parts, sender, part);
            var ours := cfg.ourIdx.Some? && sender !in parts;
            && (r.PartValid? <==>
                  && |part.rows| == cfg.n
                  && (sender in parts ==> parts[sender].commit == part.commit)
                  && (ours ==> HasRow(part, cfg.ourIdx.value, Row(part.commit, Point(cfg.ourIdx.value)))))
            && (r.PartValid? ==> (r.ack.Some? <==> ours))
            && (after == if |part.rows| == cfg.n && sender !in parts
                         then parts[sender := ProposalState(part.commit, map[], {})] else parts)
  {
  }

  /** What is wrong with a part that is not valid. */
  lemma PartFaults(cfg: Config, parts: Parts, sender: nat, part: Part)
    requires cfg.Valid() && sender < cfg.n && HandlePart(cfg, parts, sender, part).1.PartInvalid?
    ensures match HandlePart(cfg, parts, sender, part).1.partFault
            case RowCount => |part.rows| != cfg.n
            case MultipleParts => sender in parts && parts[sender].commit != part.commit
            case DecryptRow => part.rows[cfg.ourIdx.value].recipient != cfg.ourIdx.value
            case DeserializeRow => forall row :: !HasRow(part, cfg.ourIdx.value, row)
            case RowCommitment => exists row :: HasRow(part, cfg.ourIdx.value, row)
                                                && row != Row(part.commit, Point(cfg.ourIdx.value))
  {
    hide Row;
    if HandlePart(cfg, parts, sender, part).1.partFault == RowCommitment {
      var idx := cfg.ourIdx.value;
      assert HasRow(part, idx, part.rows[idx].plaintext.row);
    }
  }

  /** The value that node `idx` finds in this ack is the one that the commitment promises. */
  predicate HasValue(commit: Bivar, ack: Ack, idx: nat, sender: nat) {
    && idx < |ack.values| && ack.values[idx].recipient == idx
    && ack.values[idx].plaintext == ValueData(Evaluate(commit, Point(idx), Point(sender)))
  }

  /** An ack is valid for a node exactly if it has as many values as there are nodes, is for a part
      that is there, and has the value that the commitment promises to us, unless its sender has
      acked the part before. It counts for all once the part is there, and its value exactly if it
      is right. */
  lemma AckValidIff(cfg: Config, parts: Parts, sender: nat, ack: Ack)
    requires cfg.Valid() && sender < cfg.n
    ensures var (after, r) := HandleAck(cfg, parts, sender, ack);
            if |ack.values| != cfg.n then r == AckInvalid(ValueCount) && after == parts
            else if ack.proposer !in parts then r == AckInvalid(MissingPart) && after == parts
            else
              var part := parts[ack.proposer];
              if sender in part.acks then r == AckValid && after == parts
              else
                && ack.proposer in after
                && after == parts[ack.proposer := after[ack.proposer]]
                && after[ack.proposer].commit == part.commit && after[ack.proposer].acks == part.acks + {sender}
                && (r.AckValid? <==> cfg.ourIdx.Some? ==> HasValue(part.commit, ack, cfg.ourIdx.value, sender))
                && after[ack.proposer].values
                   == if cfg.ourIdx.Some? && r.AckValid?
                      then part.values[sender + 1 := ack.values[cfg.ourIdx.value].plaintext.value] else part.values
  {
    hide Evaluate;
  }
}
