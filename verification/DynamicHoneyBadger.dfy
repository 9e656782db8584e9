/** Dynamic Honey Badger, as far as the batches of the inner Honey Badger determine it:
    votes, key generation, eras and the validator set. */
module DhbSpec {
  import opened Options
  import opened Orders
  import opened Quorums
  import opened Polynomials
  import opened VotesSpec
  import Skg = SyncKeyGenSpec

  datatype KeyGenMessage = PartMessage(part: Skg.Part) | AckMessage(ack: Skg.Ack)

  datatype KeyGenSignature = KeyGenSignature(key: nat, msg: KeyGenMessage)

  datatype SignedKeyGenMsg = SignedKeyGenMsg(era: nat, sender: nat, msg: KeyGenMessage, sig: KeyGenSignature)

  /** A contribution with what is committed beside it. */
  datatype InternalContrib = InternalContrib(
    votes: seq<SignedVote>, keyGenMessages: seq<SignedKeyGenMsg>, contrib: nat)

  /** A batch of the inner Honey Badger, in the order of its proposers. */
  datatype HbBatch = HbBatch(epoch: nat, contributions: seq<(nat, InternalContrib)>)

  datatype ChangeState = NoChange | InProgress(change: Change) | Completed(change: Change)

  /** The validators with their public keys, the public key set, and our own share. */
  datatype NetworkInfo = NetworkInfo(ourId: nat, keys: map<nat, nat>, pkSet: Poly, skShare: Option<real>)

  datatype KeyGenState = KeyGenState(keys: map<nat, nat>, parts: Skg.Parts)

  datatype State = State(
    net: NetworkInfo, era: nat, schedule: nat, committed: Committed, keyGen: Option<KeyGenState>)

  datatype Batch = Batch(
    epoch: nat, era: nat, contributions: map<nat, nat>, change: ChangeState, net: NetworkInfo, schedule: nat)

  /** Why a call gives up. With an empty set of new validators it does not return: it panics. */
  datatype Error = UnknownSender | Panic

  // ----- Nodes as numbers -----

  /** The position of a node among the sorted keys. */
  function NodeIndex(keys: map<nat, nat>, id: nat): Option<nat> {
    if id in keys then Some(|set k | k in keys && k < id|) else None
  }

  lemma IndexInRange(keys: map<nat, nat>, id: nat)
    ensures NodeIndex(keys, id).Some? ==> NodeIndex(keys, id).value < |keys|
  {
    if id in keys {
      var below := set k | k in keys && k < id;
      assert below <= keys.Keys - {id};
      SubsetSize(below, keys.Keys - {id});
    }
  }

  function Threshold(keys: map<nat, nat>): nat {
    if |keys| == 0 then 0 else MaxFaulty(|keys|)
  }

  /** The key generation of node `ourId` for these new validators. */
  function KeyGenConfig(ourId: nat, keys: map<nat, nat>): (cfg: Skg.Config)
    ensures cfg.Valid()
  {
    IndexInRange(keys, ourId);
    Skg.Config(|keys|, NodeIndex(keys, ourId), Threshold(keys))
  }

  // ----- Contributions -----

  /** Accepts signatures of validators and of candidates. */
  predicate VerifySignature(s: State, id: nat, sig: KeyGenSignature, msg: KeyGenMessage) {
    && sig.msg == msg
    && (|| (id in s.net.keys && s.net.keys[id] == sig.key)
        || (s.keyGen.Some? && id in s.keyGen.value.keys && s.keyGen.value.keys[id] == sig.key))
  }

  datatype Handled = Handled(state: State, error: Option<Error>)

  function HandleKeyGen(s: State, sender: nat, msg: KeyGenMessage): Handled {
    if s.keyGen.None? then Handled(s, None)
    else
      var kgs := s.keyGen.value;
      var cfg := KeyGenConfig(s.net.ourId, kgs.keys);
      var idx := NodeIndex(kgs.keys, sender);
      if idx.None? then Handled(s, Some(UnknownSender))
      else
        var parts := match msg
          case PartMessage(part) => Skg.HandlePart(cfg, kgs.parts, idx.value, part).0
          case AckMessage(ack) => Skg.HandleAck(cfg, kgs.parts, idx.value, ack).0;
        Handled(s.(keyGen := Some(kgs.(parts := parts))), None)
  }

  function HandleSigned(s: State, m: SignedKeyGenMsg): Handled {
    if m.era != s.era || !VerifySignature(s, m.sender, m.sig, m.msg) then Handled(s, None)
    else HandleKeyGen(s, m.sender, m.msg)
  }

  function HandleAllSigned(s: State, ms: seq<SignedKeyGenMsg>): Handled
    decreases |ms|
  {
    if ms == [] then Handled(s, None)
    else
      var r := HandleSigned(s, ms[0]);
      if r.error.Some? then r else HandleAllSigned(r.state, ms[1..])
  }

  function HandleContribution(s: State, c: InternalContrib): Handled {
    HandleAllSigned(s.(committed := AddVotes(s.net.keys, s.era, s.committed, c.votes)), c.keyGenMessages)
  }

  function HandleContributions(s: State, cs: seq<(nat, InternalContrib)>): Handled
    decreases |cs|
  {
    if cs == [] then Handled(s, None)
    else
      var r := HandleContribution(s, cs[0].1);
      if r.error.Some? then r else HandleContributions(r.state, cs[1..])
  }

  /** The user contributions of a batch. */
  function UserContributions(cs: seq<(nat, InternalContrib)>): map<nat, nat> {
    if cs == [] then map[]
    else UserContributions(cs[..|cs| - 1])[cs[|cs| - 1].0 := cs[|cs| - 1].1.contrib]
  }

  // ----- Changes -----

  /** Whether enough parts of the new validators are complete. */
  predicate IsReady(ourId: nat, kgs: KeyGenState) {
    var threshold := Threshold(kgs.keys);
    var complete := |Skg.CompleteParts(kgs.parts, threshold)|;
    complete > threshold && complete * 3 > 2 * |kgs.keys|
  }

  /** The network of the new validators. */
  function IntoNetworkInfo(ourId: nat, kgs: KeyGenState): NetworkInfo {
    var n, threshold := |kgs.keys|, Threshold(kgs.keys);
    NetworkInfo(
      ourId,
      kgs.keys,
      Skg.PublicPoly(kgs.parts, threshold, n),
      if ourId in kgs.keys then Some(Skg.SecretShare(kgs.parts, n, threshold, n)) else None)
  }

  /** Starts a new era, without votes. */
  function Restart(s: State, era: nat): State {
    s.(era := era, committed := map[])
  }

  function UpdateKeyGen(s: State, era: nat, keys: map<nat, nat>): Handled {
    if s.keyGen.Some? && s.keyGen.value.keys == keys then Handled(s, None)
    else if |keys| == 0 then Handled(Restart(s, era), Some(Panic))
    else Handled(Restart(s, era).(keyGen := Some(KeyGenState(keys, map[]))), None)
  }

  datatype Changed = Changed(state: State, change: ChangeState, error: Option<Error>)

  /** Applies a change that is ready, or starts one that has won. */
  function ApplyChange(s: State, nextEra: nat): Changed {
    if s.keyGen.Some? && IsReady(s.net.ourId, s.keyGen.value) then
      var net := IntoNetworkInfo(s.net.ourId, s.keyGen.value);
      Changed(Restart(s.(net := net, keyGen := None), nextEra), Completed(NodeChange(net.keys)), None)
    else
      match ComputeWinner(s.committed, Threshold(s.net.keys))
      case None => Changed(s, NoChange, None)
      case Some(NodeChange(keys)) =>
        var r := UpdateKeyGen(s, nextEra, keys);
        Changed(r.state, InProgress(NodeChange(keys)), r.error)
      case Some(EncryptionSchedule(schedule)) =>
        Changed(Restart(s.(schedule := schedule), nextEra), Completed(EncryptionSchedule(schedule)), None)
  }

  datatype Processed = Output(state: State, batch: Batch) | Failed(state: State, error: Error)

  function ProcessBatch(s: State, b: HbBatch): Processed {
    var epoch := b.epoch + s.era;
    var r := HandleContributions(s, b.contributions);
    if r.error.Some? then Failed(r.state, r.error.value)
    else
      var c := ApplyChange(r.state, epoch + 1);
      if c.error.Some? then Failed(c.state, c.error.value)
      else
        Output(c.state, Batch(epoch, s.era, UserContributions(b.contributions), c.change, c.state.net, c.state.schedule))
  }

  /** The batches that a call returns: one for each that it handles, or none if it fails. */
  datatype Outcome = Outcome(state: State, batches: seq<Batch>, error: Option<Error>)

  /** Handles batches in order, until one fails. The state keeps what has been done by then. */
  function ProcessOutput(s: State, bs: seq<HbBatch>): Outcome
    decreases |bs|
  {
    if bs == [] then Outcome(s, [], None)
    else
      match ProcessBatch(s, bs[0])
      case Failed(s1, error) => Outcome(s1, [], Some(error))
      case Output(s1, batch) =>
        var rest := ProcessOutput(s1, bs[1..]);
        if rest.error.Some? then rest else Outcome(rest.state, [batch] + rest.batches, None)
  }
}
