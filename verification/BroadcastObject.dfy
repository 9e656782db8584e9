/** The Reliable Broadcast object: its methods update the fields in place and compute
    exactly what `BroadcastSpec` says. */
module BroadcastObject {
  import opened Options
  import opened Quorums
  import opened Merkle
  import opened ErasureCoding
  import opened BroadcastSpec

  datatype Result = Ok(step: Step) | Err(error: Error)

  class BroadcastInstance {
    const cfg: Config
    var valueSent: bool
    var echoSent: bool
    var readySent: bool
    var decided: bool
    var echos: map<nat, Proof>
    var readys: map<nat, Digest>

    ghost function View(): State
      reads this
    {
      State(valueSent, echoSent, readySent, decided, echos, readys)
    }

    /** A call ended with `result` where `reply` is expected. */
    ghost predicate Replied(reply: Reply, result: Result)
      reads this
    {
      reply == match result
               case Ok(step) => Done(View(), step)
               case Err(error) => Failed(View(), error)
    }

    constructor (cfg: Config)
      ensures this.cfg == cfg && View() == INITIAL
    {
      this.cfg := cfg;
      valueSent, echoSent, readySent, decided := false, false, false, false;
      echos, readys := map[], map[];
    }

    method Broadcast(input: Bytes) returns (result: Result)
      requires IsConfig(cfg)
      modifies this
      ensures Replied(BroadcastSpec.Broadcast(cfg, old(View()), input), result)
    {
      if cfg.net.ourId != cfg.proposerId {
        return Err(InstanceCannotPropose);
      }
      if valueSent {
        return Err(MultipleInputs);
      }
      valueSent := true;
      var proof, sent := SendShards(input);
      if proof.None? {
        return Err(ProofConstructionFailed);
      }
      var handled := HandleValue(cfg.net.ourId, proof.value);
      result := Ok(sent.Join(handled));
    }

    /** Splits the payload into shards and makes a message for everyone else out of each
        of them. Returns our own proof, if we are a validator. */
    method SendShards(input: Bytes) returns (own: Option<Proof>, sent: Step)
      requires IsConfig(cfg)
      ensures var shards := Shards(cfg.coding, input);
              && |shards| == cfg.net.n
              && sent == Step(ValueMessages(cfg, shards, cfg.net.n), [], [])
              && own == if cfg.net.IsValidator() then Some(ProofOf(cfg.hash, shards, cfg.net.ourId)) else None
    {
      hide Shards, ProofOf;
      var shards := MakeShards(input);
      // Every other node is sent the proof of its leaf. Ours is handled by the caller.
      var mtree := FromVec(cfg.hash, shards);
      own, sent := None, NO_STEP;
      var index := 0;
      while index < cfg.net.n
        invariant index <= cfg.net.n
        invariant sent == Step(ValueMessages(cfg, shards, index), [], [])
        invariant own == if cfg.net.ourId < index then Some(ProofOf(cfg.hash, shards, cfg.net.ourId)) else None
      {
        var proof := MakeProof(cfg.hash, mtree, index);
        if index == cfg.net.ourId {
          own := proof;
        } else {
          sent := sent.(messages := sent.messages + [(Node(index), Value(proof.value))]);
        }
        index := index + 1;
      }
    }

    /** Lays the payload out in one buffer and encodes the shards in it. */
    method MakeShards(input: Bytes) returns (shards: seq<Bytes>)
      requires IsConfig(cfg)
      ensures shards == Shards(cfg.coding, input) && |shards| == cfg.net.n
    {
      hide Glue, ReadLength, LengthPrefix;
      var dataShardNum := cfg.coding.dataShards;
      var parityShardNum := cfg.coding.ParityShardCount();
      // The prefix says where the payload ends and the zeros begin.
      var value := LengthPrefix(|input|) + input;
      var shardLen := (|value| + dataShardNum - 1) / dataShardNum;
      assert shardLen == ShardLen(cfg.coding, |value|);
      // All shards are allocated as one block, which is zero behind the payload.
      ghost var data := Resize(value, shardLen * dataShardNum);
      PaddingArith(shardLen, dataShardNum, parityShardNum);
      value := Resize(value, shardLen * (dataShardNum + parityShardNum));
      var chunks := ChunksMut(value, shardLen, dataShardNum + parityShardNum);
      ChunksPrefix(value, shardLen, dataShardNum + parityShardNum, dataShardNum);
      assert value[..shardLen * dataShardNum] == data;
      // The last shards are replaced by parity.
      shards := cfg.coding.Encode(chunks);
      assert chunks[..dataShardNum] == DataShards(cfg.coding, input);
      ShardsAreCodeword(cfg.coding, input);
      assert shards == Shards(cfg.coding, input) by {
        if cfg.coding.Trivial? {
          assert chunks[..dataShardNum] == chunks;
        }
      }
    }

    /** Divides a buffer into chunks. */
    method ChunksMut(buffer: Bytes, len: nat, count: nat) returns (chunks: seq<Bytes>)
      requires |buffer| == len * count
      ensures chunks == Chunks(buffer, len, count)
    {
      chunks := [];
      var rest, k: nat := buffer, count;
      while k > 0
        invariant k <= count && |rest| == len * k
        invariant chunks + Chunks(rest, len, k) == Chunks(buffer, len, count)
      {
        ChunkArith(len, k);
        chunks := chunks + [rest[..len]];
        rest := rest[len..];
        k := k - 1;
      }
      assert chunks + [] == chunks;
    }

    method HandleMessage(sender: nat, msg: Message) returns (result: Result)
      modifies this
      ensures Replied(BroadcastSpec.HandleMessage(cfg, old(View()), sender, msg), result)
    {
      if sender >= cfg.net.n {
        return Err(UnknownSender);
      }
      var step: Step;
      match msg {
        case Value(p) => step := HandleValue(sender, p);
        case Echo(p) => step := HandleEcho(sender, p);
        case Ready(root) => step := HandleReady(sender, root);
      }
      result := Ok(step);
    }

    method HandleValue(sender: nat, p: Proof) returns (step: Step)
      modifies this
      ensures BroadcastSpec.HandleValue(cfg, old(View()), sender, p) == Outcome(View(), step)
    {
      if sender != cfg.proposerId {
        return Step([], [], [Fault(sender, ReceivedValueFromNonProposer)]);
      }
      if echoSent {
        if cfg.net.ourId in echos && echos[cfg.net.ourId] == p {
          return NO_STEP;
        }
        return Step([], [], [Fault(sender, MultipleValues)]);
      }
      var valid := ValidateProof(p, cfg.net.ourId);
      if !valid {
        return Step([], [], [Fault(sender, InvalidProof)]);
      }
      step := SendEcho(p);
    }

    method ValidateProof(p: Proof, id: nat) returns (valid: bool)
      ensures valid == ValidProof(cfg, p, id)
    {
      if id >= cfg.net.n || p.index != id {
        return false;
      }
      valid := Validate(cfg.hash, p, cfg.net.n);
    }

    method SendEcho(p: Proof) returns (step: Step)
      modifies this
      ensures BroadcastSpec.SendEcho(cfg, old(View()), p) == Outcome(View(), step)
    {
      echoSent := true;
      if !cfg.net.IsValidator() {
        return NO_STEP;
      }
      var handled := HandleEcho(cfg.net.ourId, p);
      step := Step([(All, Echo(p))], [], []).Join(handled);
    }

    method HandleEcho(sender: nat, p: Proof) returns (step: Step)
      modifies this
      ensures BroadcastSpec.HandleEcho(cfg, old(View()), sender, p) == Outcome(View(), step)
    {
      if sender in echos {
        if echos[sender] == p {
          return NO_STEP;
        }
        return Step([], [], [Fault(sender, MultipleEchos)]);
      }
      var valid := ValidateProof(p, sender);
      if !valid {
        return Step([], [], [Fault(sender, InvalidProof)]);
      }
      var root := p.rootHash;
      echos := echos[sender := p];
      var count := CountEchos(root);
      if readySent || count < cfg.net.NumCorrect() {
        step := ComputeOutput(root);
      } else {
        step := SendReady(root);
      }
    }

    method HandleReady(sender: nat, root: Digest) returns (step: Step)
      modifies this
      ensures BroadcastSpec.HandleReady(cfg, old(View()), sender, root) == Outcome(View(), step)
      decreases Unready(View()), 0
    {
      if sender in readys {
        if readys[sender] == root {
          return NO_STEP;
        }
        return Step([], [], [Fault(sender, MultipleReadys)]);
      }
      readys := readys[sender := root];
      step := NO_STEP;
      var count := CountReadys(root);
      if count == cfg.net.NumFaulty() + 1 && !readySent {
        step := SendReady(root);
      }
      var more := ComputeOutput(root);
      step := step.Join(more);
    }

    method SendReady(root: Digest) returns (step: Step)
      requires !readySent
      modifies this
      ensures BroadcastSpec.SendReady(cfg, old(View()), root) == Outcome(View(), step)
      decreases 0, 1
    {
      readySent := true;
      if !cfg.net.IsValidator() {
        return NO_STEP;
      }
      var handled := HandleReady(cfg.net.ourId, root);
      step := Step([(All, Ready(root))], [], []).Join(handled);
    }

    method CountEchos(root: Digest) returns (count: nat)
      ensures count == |EchosOf(View(), root)|
    {
      var ids := set id | id in echos && echos[id].rootHash == root;
      assert ids == EchosOf(View(), root);
      count := |ids|;
    }

    method CountReadys(root: Digest) returns (count: nat)
      ensures count == |ReadysOf(View(), root)|
    {
      var ids := set id | id in readys && readys[id] == root;
      assert ids == ReadysOf(View(), root);
      count := |ids|;
    }

    method ComputeOutput(root: Digest) returns (step: Step)
      modifies this
      ensures BroadcastSpec.ComputeOutput(cfg, old(View()), root) == Outcome(View(), step)
    {
      var readyCount := CountReadys(root);
      var echoCount := CountEchos(root);
      if decided || readyCount <= 2 * cfg.net.NumFaulty() || echoCount < cfg.coding.dataShards {
        return NO_STEP;
      }
      var leafValues: seq<Option<Bytes>> := [];
      var id := 0;
      while id < cfg.net.n
        invariant id <= cfg.net.n
        invariant |leafValues| == id
        invariant forall i :: 0 <= i < id ==> leafValues[i] == LeafValues(cfg, View(), root)[i]
      {
        leafValues := leafValues
          + [if id in echos && echos[id].rootHash == root then Some(echos[id].value) else None];
        id := id + 1;
      }
      assert leafValues == LeafValues(cfg, View(), root);
      var value := DecodeFromShards(cfg.coding, cfg.hash, leafValues, root);
      if value.Some? {
        decided := true;
        step := Step([], [value.value], []);
      } else {
        step := Step([], [], [Fault(cfg.proposerId, BroadcastDecoding)]);
      }
    }
  }

  lemma PaddingArith(len: nat, k: nat, m: nat)
    ensures len * k <= len * (k + m)
  {
    assert len * (k + m) == len * k + len * m;
  }
}
