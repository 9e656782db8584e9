/** Reliable Broadcast as functions from the old state of an instance to the new one. */
module BroadcastSpec {
  import opened Options
  import opened Quorums
  import opened Merkle
  import opened ErasureCoding

  datatype Message = Value(p: Proof) | Echo(p: Proof) | Ready(root: Digest)

  datatype Target = All | Node(id: nat)

  datatype FaultKind =
    | ReceivedValueFromNonProposer | MultipleValues | InvalidProof
    | MultipleEchos | MultipleReadys | BroadcastDecoding

  datatype Fault = Fault(id: nat, kind: FaultKind)

  datatype Step = Step(messages: seq<(Target, Message)>, output: seq<Bytes>, faults: seq<Fault>) {
    function Join(other: Step): Step {
      Step(messages + other.messages, output + other.output, faults + other.faults)
    }
  }

  const NO_STEP := Step([], [], [])

  datatype Error = InstanceCannotPropose | MultipleInputs | ProofConstructionFailed | UnknownSender

  datatype Config = Config(net: NetworkInfo, proposerId: nat, coding: Coding, hash: Hash)

  /** `2 f` of the `N` shards are parity shards. */
  ghost predicate IsConfig(cfg: Config) {
    && Lawful(cfg.coding)
    && cfg.coding.ParityShardCount() == 2 * cfg.net.NumFaulty()
    && cfg.coding.dataShards == cfg.net.n - 2 * cfg.net.NumFaulty()
  }

  datatype State = State(
    valueSent: bool,
    echoSent: bool,
    readySent: bool,
    decided: bool,
    echos: map<nat, Proof>,
    readys: map<nat, Digest>)

  const INITIAL := State(false, false, false, false, map[], map[])

  datatype Outcome = Outcome(state: State, step: Step)

  /** A step, or the error that ended the call. */
  datatype Reply = Done(state: State, step: Step) | Failed(state: State, error: Error)

  function Faulty(s: State, id: nat, kind: FaultKind): Outcome {
    Outcome(s, Step([], [], [Fault(id, kind)]))
  }

  /** The nodes that sent us an `Echo` with this root. */
  function EchosOf(s: State, root: Digest): set<nat> {
    set id | id in s.echos && s.echos[id].rootHash == root
  }

  /** The nodes that sent us a `Ready` with this root. */
  function ReadysOf(s: State, root: Digest): set<nat> {
    set id | id in s.readys && s.readys[id] == root
  }

  predicate ValidProof(cfg: Config, p: Proof, id: nat) {
    id < cfg.net.n && p.index == id && IsValid(cfg.hash, p, cfg.net.n)
  }

  function LeafValues(cfg: Config, s: State, root: Digest): seq<Option<Bytes>> {
    seq(cfg.net.n, id requires 0 <= id < cfg.net.n =>
      if id in s.echos && s.echos[id].rootHash == root then Some(s.echos[id].value) else None)
  }

  /** Whether there are enough messages for this root to decode. */
  predicate IsRipe(cfg: Config, s: State, root: Digest) {
    && |ReadysOf(s, root)| > 2 * cfg.net.NumFaulty()
    && |EchosOf(s, root)| >= cfg.coding.dataShards
  }

  function Decoded(cfg: Config, s: State, root: Digest): Option<Bytes> {
    DecodeFromShards(cfg.coding, cfg.hash, LeafValues(cfg, s, root), root)
  }

  function ComputeOutput(cfg: Config, s: State, root: Digest): Outcome {
    if s.decided || !IsRipe(cfg, s, root) then
      Outcome(s, NO_STEP)
    else
      match Decoded(cfg, s, root)
      case Some(value) => Outcome(s.(decided := true), Step([], [value], []))
      case None => Faulty(s, cfg.proposerId, BroadcastDecoding)
  }

  function Unready(s: State): nat {
    if s.readySent then 0 else 1
  }

  function HandleReady(cfg: Config, s: State, sender: nat, root: Digest): Outcome
    decreases Unready(s), 0
  {
    if sender in s.readys then
      if s.readys[sender] == root then Outcome(s, NO_STEP) else Faulty(s, sender, MultipleReadys)
    else
      var s1 := s.(readys := s.readys[sender := root]);
      var r1 := if |ReadysOf(s1, root)| == cfg.net.NumFaulty() + 1 && !s1.readySent
                then SendReady(cfg, s1, root) else Outcome(s1, NO_STEP);
      var r2 := ComputeOutput(cfg, r1.state, root);
      Outcome(r2.state, r1.step.Join(r2.step))
  }

  function SendReady(cfg: Config, s: State, root: Digest): Outcome
    requires !s.readySent
    decreases 0, 1
  {
    var s1 := s.(readySent := true);
    if !cfg.net.IsValidator() then
      Outcome(s1, NO_STEP)
    else
      var r := HandleReady(cfg, s1, cfg.net.ourId, root);
      Outcome(r.state, Step([(All, Ready(root))], [], []).Join(r.step))
  }

  function HandleEcho(cfg: Config, s: State, sender: nat, p: Proof): Outcome {
    if sender in s.echos then
      if s.echos[sender] == p then Outcome(s, NO_STEP) else Faulty(s, sender, MultipleEchos)
    else if !ValidProof(cfg, p, sender) then
      Faulty(s, sender, InvalidProof)
    else
      var s1 := s.(echos := s.echos[sender := p]);
      if s1.readySent || |EchosOf(s1, p.rootHash)| < cfg.net.NumCorrect() then
        ComputeOutput(cfg, s1, p.rootHash)
      else
        SendReady(cfg, s1, p.rootHash)
  }

  function SendEcho(cfg: Config, s: State, p: Proof): Outcome {
    var s1 := s.(echoSent := true);
    if !cfg.net.IsValidator() then
      Outcome(s1, NO_STEP)
    else
      var r := HandleEcho(cfg, s1, cfg.net.ourId, p);
      Outcome(r.state, Step([(All, Echo(p))], [], []).Join(r.step))
  }

  function HandleValue(cfg: Config, s: State, sender: nat, p: Proof): Outcome {
    if sender != cfg.proposerId then
      Faulty(s, sender, ReceivedValueFromNonProposer)
    else if s.echoSent then
      if cfg.net.ourId in s.echos && s.echos[cfg.net.ourId] == p then Outcome(s, NO_STEP)
      else Faulty(s, sender, MultipleValues)
    else if !ValidProof(cfg, p, cfg.net.ourId) then
      Faulty(s, sender, InvalidProof)
    else
      SendEcho(cfg, s, p)
  }

  function HandleMessage(cfg: Config, s: State, sender: nat, msg: Message): Reply {
    if sender >= cfg.net.n then
      Failed(s, UnknownSender)
    else
      var r := match msg
        case Value(p) => HandleValue(cfg, s, sender, p)
        case Echo(p) => HandleEcho(cfg, s, sender, p)
        case Ready(root) => HandleReady(cfg, s, sender, root);
      Done(r.state, r.step)
  }

  /** The `Value` messages for all validators below `count` except us. */
  function ValueMessages(cfg: Config, shards: seq<Bytes>, count: nat): seq<(Target, Message)>
    requires count <= |shards|
  {
    if count == 0 then []
    else
      ValueMessages(cfg, shards, count - 1)
      + if count - 1 == cfg.net.ourId then []
        else [(Node(count - 1), Value(ProofOf(cfg.hash, shards, count - 1)))]
  }

  /** Starts the broadcast of `input`, in the proposer. */
  function Broadcast(cfg: Config, s: State, input: Bytes): Reply
    requires IsConfig(cfg)
  {
    if cfg.net.ourId != cfg.proposerId then
      Failed(s, InstanceCannotPropose)
    else if s.valueSent then
      Failed(s, MultipleInputs)
    else
      var s1 := s.(valueSent := true);
      ShardsAreCodeword(cfg.coding, input);
      var shards := Shards(cfg.coding, input);
      if !cfg.net.IsValidator() then
        Failed(s1, ProofConstructionFailed)
      else
        var sent := Step(ValueMessages(cfg, shards, cfg.net.n), [], []);
        var r := HandleValue(cfg, s1, cfg.net.ourId, ProofOf(cfg.hash, shards, cfg.net.ourId));
        Done(r.state, sent.Join(r.step))
  }
}
