/** How an epoch of Honey Badger without encryption collects the output of its subset
    protocol: contribution by contribution, or all at the end. */
module EpochStateSpec {
  import opened Options
  import opened Merkle
  import opened SubsetSpec

  /** The status of a contribution: shares may have arrived, or we have the plaintext. */
  datatype DecryptionState = Pending | Decrypted(plaintext: Bytes)

  datatype Handler = Incremental | AllAtEnd(buffer: seq<(nat, Bytes)>)

  datatype HandleData = HandleData(handler: Handler, contributions: seq<(nat, Bytes)>, isDone: bool)

  function HandleOutput(handler: Handler, o: Output): HandleData {
    match o
    case Contribution(p, v) =>
      if handler.Incremental? then HandleData(handler, [(p, v)], false)
      else HandleData(AllAtEnd(handler.buffer + [(p, v)]), [], false)
    case Done =>
      if handler.Incremental? then HandleData(handler, [], true)
      else HandleData(AllAtEnd([]), handler.buffer, true)
  }

  /** `accepted` are the proposers found so far, `complete` the final set of them. */
  datatype EpochData = EpochData(
    handler: Handler,
    decryption: map<nat, DecryptionState>,
    accepted: set<nat>,
    complete: Option<set<nat>>)

  function Initial(handler: Handler): EpochData {
    EpochData(handler, map[], {}, None)
  }

  function Insert(s: EpochData, contributions: seq<(nat, Bytes)>): EpochData
    decreases |contributions|
  {
    if contributions == [] then s
    else
      var (p, v) := contributions[0];
      Insert(s.(decryption := s.decryption[p := Decrypted(v)], accepted := s.accepted + {p}), contributions[1..])
  }

  /** Fixes the set of proposers, and forgets the shares for all others. */
  function Finish(s: EpochData): EpochData {
    s.(complete := Some(s.accepted), decryption := s.decryption - (s.decryption.Keys - s.accepted))
  }

  function ProcessOne(s: EpochData, o: Output): EpochData {
    var d := HandleOutput(s.handler, o);
    var s1 := Insert(s.(handler := d.handler), d.contributions);
    if d.isDone then Finish(s1) else s1
  }

  function ProcessSubset(s: EpochData, outputs: seq<Output>): EpochData
    decreases |outputs|
  {
    if outputs == [] then s else ProcessSubset(ProcessOne(s, outputs[0]), outputs[1..])
  }

  /** A decryption share without a ciphertext: it is kept, unless its proposer is rejected. */
  function HandleShare(s: EpochData, p: nat): EpochData {
    if (s.complete.Some? && p !in s.complete.value) || p in s.decryption then s
    else s.(decryption := s.decryption[p := Pending])
  }

  datatype Batch<C> = Batch(contributions: map<nat, C>, faulty: set<nat>)

  /** The batch, when all accepted contributions are there. Proposers of contributions that
      cannot be deserialized are faulty. */
  function TryOutputBatch<C>(s: EpochData, deserialize: Bytes -> Option<C>): Option<Batch<C>> {
    if s.complete.None? then None
    else
      var ids := s.complete.value;
      if forall id :: id in ids ==> id in s.decryption && s.decryption[id].Decrypted? then
        Some(Batch(
          map id | id in ids && deserialize(s.decryption[id].plaintext).Some? ::
            deserialize(s.decryption[id].plaintext).value,
          set id | id in ids && deserialize(s.decryption[id].plaintext).None?))
      else None
  }
}
