/** What one node of a Reliable Broadcast may claim about the messages it has heard,
    and that every handler keeps these claims. */
module BroadcastNode {
  import opened Options
  import opened Quorums
  import opened Merkle
  import opened ErasureCoding
  import opened BroadcastSpec

  /** All messages a node has received, or multicast itself, with their senders; all it
      has sent, with their targets; its input and its outputs. */
  datatype History = History(
    heard: set<(nat, Message)>,
    sent: set<(Target, Message)>,
    input: Option<Bytes>,
    outputs: seq<Bytes>)

  ghost predicate Extends(h: History, h': History) {
    h.heard <= h'.heard && h.sent <= h'.sent && (h.input.Some? ==> h'.input == h.input)
  }

  /** The history after a call that returned `step`. */
  function Extend(cfg: Config, h: History, step: Step): History {
    h.(
      heard := h.heard + (set m | m in step.messages && m.0 == All :: (cfg.net.ourId, m.1)),
      sent := h.sent + (set m | m in step.messages),
      outputs := h.outputs + step.output)
  }

  lemma ExtendTwice(cfg: Config, h: History, a: Step, b: Step)
    ensures Extend(cfg, Extend(cfg, h, a), b) == Extend(cfg, h, a.Join(b))
  {
    assert Extend(cfg, Extend(cfg, h, a), b).heard == Extend(cfg, h, a.Join(b)).heard;
    assert Extend(cfg, Extend(cfg, h, a), b).sent == Extend(cfg, h, a.Join(b)).sent;
  }

  lemma ExtendQuiet(cfg: Config, h: History, step: Step)
    requires step.messages == []
    ensures Extend(cfg, h, step) == h.(outputs := h.outputs + step.output)
  {
    assert Extend(cfg, h, step).heard == h.heard;
    assert Extend(cfg, h, step).sent == h.sent;
  }

  /** The history after multicasting `m`. */
  function Multicast(cfg: Config, h: History, m: Message): History {
    h.(heard := h.heard + {(cfg.net.ourId, m)}, sent := h.sent + {(All, m)})
  }

  lemma ExtendMulticast(cfg: Config, h: History, m: Message)
    ensures Extend(cfg, h, Step([(All, m)], [], [])) == Multicast(cfg, h, m)
  {
    var step := Step([(All, m)], [], []);
    assert Extend(cfg, h, step).heard == Multicast(cfg, h, m).heard;
    assert Extend(cfg, h, step).sent == Multicast(cfg, h, m).sent;
  }

  // ----- Certificates -----

  ghost predicate EchoVote(h: History, root: Digest, id: nat) {
    exists p :: (id, Echo(p)) in h.heard && p.rootHash == root
  }

  ghost function EchoVoters(cfg: Config, h: History, root: Digest): set<nat> {
    set id: nat | id < cfg.net.n && EchoVote(h, root, id)
  }

  ghost function ReadyVoters(cfg: Config, h: History, root: Digest): set<nat> {
    set id: nat | id < cfg.net.n && (id, Ready(root)) in h.heard
  }

  /** `N - f` nodes have echoed a proof for this root. */
  ghost predicate Echoed(cfg: Config, h: History, root: Digest) {
    |EchoVoters(cfg, h, root)| >= cfg.net.NumCorrect()
  }

  ghost predicate ReadyJustified(cfg: Config, h: History, root: Digest) {
    || Echoed(cfg, h, root)
    || |ReadyVoters(cfg, h, root) - {cfg.net.ourId}| > cfg.net.NumFaulty()
  }

  /** The proof for `id` that belongs to our own input, if we are the proposer. */
  ghost predicate OwnProof(cfg: Config, h: History, id: nat, p: Proof) {
    && cfg.net.ourId == cfg.proposerId
    && h.input.Some?
    && cfg.coding.dataShards > 0
    && id < |Shards(cfg.coding, h.input.value)|
    && p == ProofOf(cfg.hash, Shards(cfg.coding, h.input.value), id)
  }

  ghost predicate EchoJustified(cfg: Config, h: History, p: Proof) {
    && ValidProof(cfg, p, cfg.net.ourId)
    && ((cfg.proposerId, Value(p)) in h.heard || OwnProof(cfg, h, cfg.net.ourId, p))
  }

  /** `leaves` are the `N` leaves under `root`, and `value` is what they stand for. */
  ghost predicate IsValueOf(cfg: Config, root: Digest, leaves: seq<Bytes>, value: Bytes) {
    && |leaves| == cfg.net.n
    && |leaves| >= cfg.coding.dataShards
    && Root(cfg.hash, Leaves(cfg.hash, leaves)) == root
    && Payload(cfg.coding, leaves) == Some(value)
  }

  ghost predicate OutputFrom(cfg: Config, h: History, root: Digest, leaves: seq<Bytes>, value: Bytes) {
    && |ReadyVoters(cfg, h, root)| > 2 * cfg.net.NumFaulty()
    && IsValueOf(cfg, root, leaves, value)
    && cfg.coding.Reconstruct(Whole(leaves)) == Some(leaves)
  }

  ghost predicate OutputCert(cfg: Config, h: History, value: Bytes) {
    exists root, leaves :: OutputFrom(cfg, h, root, leaves, value)
  }

  // ----- The invariant of a node -----

  ghost predicate Received(cfg: Config, h: History, s: State) {
    && (forall id :: id in s.echos ==>
          (id, Echo(s.echos[id])) in h.heard && ValidProof(cfg, s.echos[id], id))
    && (forall id :: id in s.readys ==> id < cfg.net.n && (id, Ready(s.readys[id])) in h.heard)
  }

  ghost predicate OwnEcho(cfg: Config, h: History, echoSent: bool) {
    && (forall p :: (cfg.net.ourId, Echo(p)) in h.heard ==> echoSent && EchoJustified(cfg, h, p))
    && (forall p, q :: (cfg.net.ourId, Echo(p)) in h.heard && (cfg.net.ourId, Echo(q)) in h.heard ==> p == q)
  }

  ghost predicate OwnReady(cfg: Config, h: History, readySent: bool) {
    && (forall d :: (cfg.net.ourId, Ready(d)) in h.heard ==> readySent && ReadyJustified(cfg, h, d))
    && (forall d, e :: (cfg.net.ourId, Ready(d)) in h.heard && (cfg.net.ourId, Ready(e)) in h.heard ==> d == e)
  }

  ghost predicate OwnSent(cfg: Config, h: History, valueSent: bool) {
    && (h.input.Some? ==> valueSent && cfg.net.ourId == cfg.proposerId)
    && (forall m :: (All, m) in h.sent ==> (cfg.net.ourId, m) in h.heard && !m.Value?)
    && (forall id, m :: (Node(id), m) in h.sent ==> m.Value? && OwnProof(cfg, h, id, m.p))
  }

  ghost predicate OwnOutput(cfg: Config, h: History, decided: bool) {
    && |h.outputs| == (if decided then 1 else 0)
    && (forall i :: 0 <= i < |h.outputs| ==> OutputCert(cfg, h, h.outputs[i]))
  }

  ghost predicate NodeInv(cfg: Config, h: History, s: State) {
    && Received(cfg, h, s)
    && OwnEcho(cfg, h, s.echoSent)
    && OwnReady(cfg, h, s.readySent)
    && OwnSent(cfg, h, s.valueSent)
    && OwnOutput(cfg, h, s.decided)
  }

  // ----- Histories only grow, and certificates stay valid -----

  lemma VotersGrow(cfg: Config, h: History, h': History, root: Digest)
    requires h.heard <= h'.heard
    ensures EchoVoters(cfg, h, root) <= EchoVoters(cfg, h', root)
    ensures ReadyVoters(cfg, h, root) <= ReadyVoters(cfg, h', root)
    ensures |ReadyVoters(cfg, h, root)| <= |ReadyVoters(cfg, h', root)|
    ensures Echoed(cfg, h, root) ==> Echoed(cfg, h', root)
    ensures ReadyJustified(cfg, h, root) ==> ReadyJustified(cfg, h', root)
  {
    forall id | id in EchoVoters(cfg, h, root) ensures id in EchoVoters(cfg, h', root) {
      var p :| (id, Echo(p)) in h.heard && p.rootHash == root;
      assert (id, Echo(p)) in h'.heard;
    }
    SubsetSize(EchoVoters(cfg, h, root), EchoVoters(cfg, h', root));
    SubsetSize(ReadyVoters(cfg, h, root), ReadyVoters(cfg, h', root));
    SubsetSize(ReadyVoters(cfg, h, root) - {cfg.net.ourId}, ReadyVoters(cfg, h', root) - {cfg.net.ourId});
  }

  lemma OutputCertGrows(cfg: Config, h: History, h': History, value: Bytes)
    requires h.heard <= h'.heard && OutputCert(cfg, h, value)
    ensures OutputCert(cfg, h', value)
  {
    var root, leaves :| OutputFrom(cfg, h, root, leaves, value);
    VotersGrow(cfg, h, h', root);
    assert OutputFrom(cfg, h', root, leaves, value);
  }

  /** Nothing new from ourselves: only messages of others. */
  ghost predicate OnlyOthers(cfg: Config, h: History, h': History) {
    && Extends(h, h') && h'.sent == h.sent && h'.outputs == h.outputs
    && (forall m :: (cfg.net.ourId, m) in h'.heard ==> (cfg.net.ourId, m) in h.heard)
  }

  lemma ReceiveOk(cfg: Config, h: History, h': History, s: State)
    requires NodeInv(cfg, h, s) && OnlyOthers(cfg, h, h') && h'.input == h.input
    ensures NodeInv(cfg, h', s)
  {
    hide ReadyJustified, OutputCert, ValidProof;
    forall d | (cfg.net.ourId, Ready(d)) in h'.heard ensures ReadyJustified(cfg, h', d) {
      VotersGrow(cfg, h, h', d);
    }
    forall i | 0 <= i < |h'.outputs| ensures OutputCert(cfg, h', h'.outputs[i]) {
      OutputCertGrows(cfg, h, h', h.outputs[i]);
    }
  }

  lemma OutputsStay(cfg: Config, h: History, h': History, decided: bool)
    requires OwnOutput(cfg, h, decided) && h.heard <= h'.heard && h'.outputs == h.outputs
    ensures OwnOutput(cfg, h', decided)
  {
    hide OutputCert;
    forall i | 0 <= i < |h'.outputs| ensures OutputCert(cfg, h', h'.outputs[i]) {
      OutputCertGrows(cfg, h, h', h.outputs[i]);
    }
  }

  lemma MulticastOk(cfg: Config, h: History, m: Message, s: State)
    requires NodeInv(cfg, h, s)
    requires m.Ready? && s.readySent && ReadyJustified(cfg, h, m.root)
    requires forall d :: (cfg.net.ourId, Ready(d)) !in h.heard
    ensures NodeInv(cfg, Multicast(cfg, h, m), s)
  {
    hide ReadyJustified, OwnOutput, OwnSent, EchoJustified, ValidProof;
    var h' := Multicast(cfg, h, m);
    VotersGrow(cfg, h, h', m.root);
    forall p | (cfg.net.ourId, Echo(p)) in h'.heard ensures EchoJustified(cfg, h', p) {
      EchoStays(cfg, h, h', p);
    }
    OutputsStay(cfg, h, h', s.decided);
    SentGrows(cfg, h, h', s.valueSent, m);
  }

  lemma SentGrows(cfg: Config, h: History, h': History, valueSent: bool, m: Message)
    requires OwnSent(cfg, h, valueSent) && h' == Multicast(cfg, h, m) && !m.Value?
    ensures OwnSent(cfg, h', valueSent)
  {
    hide OwnProof;
    forall id, v | (Node(id), v) in h'.sent ensures v.Value? && OwnProof(cfg, h', id, v.p) {
      assert (Node(id), v) in h.sent;
      assert OwnProof(cfg, h, id, v.p);
      ProofsKeep(cfg, h, h', id, v.p);
    }
  }

  lemma ProofsKeep(cfg: Config, h: History, h': History, id: nat, p: Proof)
    requires h'.input == h.input && OwnProof(cfg, h, id, p)
    ensures OwnProof(cfg, h', id, p)
  {
  }

  lemma EchoStays(cfg: Config, h: History, h': History, p: Proof)
    requires h'.input == h.input && h.heard <= h'.heard && EchoJustified(cfg, h, p)
    ensures EchoJustified(cfg, h', p)
  {
  }

  lemma MulticastEchoOk(cfg: Config, h: History, p: Proof, s: State)
    requires NodeInv(cfg, h, s)
    requires s.echoSent && EchoJustified(cfg, h, p)
    requires forall q :: (cfg.net.ourId, Echo(q)) !in h.heard
    ensures NodeInv(cfg, Multicast(cfg, h, Echo(p)), s)
  {
    hide ReadyJustified, OutputCert, ValidProof;
    var h' := Multicast(cfg, h, Echo(p));
    forall d | (cfg.net.ourId, Ready(d)) in h'.heard ensures ReadyJustified(cfg, h', d) {
      VotersGrow(cfg, h, h', d);
    }
    forall i | 0 <= i < |h'.outputs| ensures OutputCert(cfg, h', h'.outputs[i]) {
      OutputCertGrows(cfg, h, h', h.outputs[i]);
    }
    SentGrows(cfg, h, h', s.valueSent, Echo(p));
  }

  // ----- The handlers -----

  ghost predicate NodeOk(cfg: Config, h: History, r: Outcome) {
    NodeInv(cfg, Extend(cfg, h, r.step), r.state)
  }

  lemma NodeOkQuiet(cfg: Config, h: History, r: Outcome)
    requires NodeInv(cfg, h, r.state) && r.step.messages == [] && r.step.output == []
    ensures NodeOk(cfg, h, r)
  {
    hide NodeInv;
    ExtendQuiet(cfg, h, r.step);
    assert h.outputs + [] == h.outputs;
  }

  lemma NodeOkJoin(cfg: Config, h: History, step: Step, r: Outcome)
    requires NodeOk(cfg, Extend(cfg, h, step), r)
    ensures NodeOk(cfg, h, Outcome(r.state, step.Join(r.step)))
  {
    hide NodeInv;
    ExtendTwice(cfg, h, step, r.step);
  }

  lemma ComputeOutputOk(cfg: Config, h: History, s: State, root: Digest)
    requires IsConfig(cfg) && NodeInv(cfg, h, s)
    ensures NodeOk(cfg, h, ComputeOutput(cfg, s, root))
  {
    var r := ComputeOutput(cfg, s, root);
    if s.decided || !IsRipe(cfg, s, root) || Decoded(cfg, s, root).None? {
      NodeOkQuiet(cfg, h, r);
    } else {
      var value := Decoded(cfg, s, root).value;
      DecodedIsValue(cfg, s, root);
      var leaves := cfg.coding.Reconstruct(LeafValues(cfg, s, root)).value;
      assert ReadysOf(s, root) <= ReadyVoters(cfg, h, root);
      SubsetSize(ReadysOf(s, root), ReadyVoters(cfg, h, root));
      assert OutputFrom(cfg, h, root, leaves, value);
      ExtendQuiet(cfg, h, r.step);
      AddOutput(cfg, h, s, value);
    }
  }

  lemma DecodedIsValue(cfg: Config, s: State, root: Digest)
    requires IsConfig(cfg) && Decoded(cfg, s, root).Some?
    ensures var leaves := cfg.coding.Reconstruct(LeafValues(cfg, s, root));
            && leaves.Some? && IsValueOf(cfg, root, leaves.value, Decoded(cfg, s, root).value)
            && cfg.coding.Reconstruct(Whole(leaves.value)) == leaves
  {
    hide IsCodeword, Root, Leaves, Payload;
    var shards := LeafValues(cfg, s, root);
    assert IsCompletion(cfg.coding, shards, cfg.coding.Reconstruct(shards).value);
  }

  lemma AddOutput(cfg: Config, h: History, s: State, value: Bytes)
    requires NodeInv(cfg, h, s) && OutputCert(cfg, h, value) && !s.decided
    ensures NodeInv(cfg, h.(outputs := h.outputs + [value]), s.(decided := true))
  {
    hide OutputFrom, ValidProof, OwnProof, Echoed;
    var h' := h.(outputs := h.outputs + [value]);
    OutputCertGrows(cfg, h, h', value);
    assert h'.outputs == [value];
    forall d | (cfg.net.ourId, Ready(d)) in h'.heard ensures ReadyJustified(cfg, h', d) {
      VotersGrow(cfg, h, h', d);
    }
    forall id, m | (Node(id), m) in h'.sent ensures m.Value? && OwnProof(cfg, h', id, m.p) {
      ProofsKeep(cfg, h, h', id, m.p);
    }
    forall p | (cfg.net.ourId, Echo(p)) in h'.heard ensures EchoJustified(cfg, h', p) {
      EchoStays(cfg, h, h', p);
    }
  }

  lemma HandleReadyOk(cfg: Config, h: History, s: State, sender: nat, root: Digest)
    requires IsConfig(cfg) && NodeInv(cfg, h, s)
    requires sender < cfg.net.n && (sender, Ready(root)) in h.heard
    ensures NodeOk(cfg, h, HandleReady(cfg, s, sender, root))
    decreases Unready(s), 0
  {
    if sender in s.readys {
      NodeOkQuiet(cfg, h, HandleReady(cfg, s, sender, root));
    } else {
      var s1 := s.(readys := s.readys[sender := root]);
      AddReady(cfg, h, s, sender, root);
      var r1 := if |ReadysOf(s1, root)| == cfg.net.NumFaulty() + 1 && !s1.readySent
                then SendReady(cfg, s1, root) else Outcome(s1, NO_STEP);
      hide NodeInv;
      if |ReadysOf(s1, root)| == cfg.net.NumFaulty() + 1 && !s1.readySent {
        SendReadyOk(cfg, h, s1, root);
      } else {
        NodeOkQuiet(cfg, h, r1);
      }
      ComputeOutputOk(cfg, Extend(cfg, h, r1.step), r1.state, root);
      NodeOkJoin(cfg, h, r1.step, ComputeOutput(cfg, r1.state, root));
    }
  }

  /** `f + 1` `Ready`s, none of them ours, justify sending ours. */
  lemma AddReady(cfg: Config, h: History, s: State, sender: nat, root: Digest)
    requires NodeInv(cfg, h, s)
    requires sender < cfg.net.n && (sender, Ready(root)) in h.heard
    ensures var s1 := s.(readys := s.readys[sender := root]);
            && NodeInv(cfg, h, s1)
            && (|ReadysOf(s1, root)| > cfg.net.NumFaulty() && !s1.readySent ==> ReadyJustified(cfg, h, root))
  {
    hide ReadyJustified, OutputCert, ValidProof, OwnProof;
    var s1 := s.(readys := s.readys[sender := root]);
    assert Received(cfg, h, s1);
    if |ReadysOf(s1, root)| > cfg.net.NumFaulty() && !s1.readySent {
      var others := ReadyVoters(cfg, h, root) - {cfg.net.ourId};
      assert ReadysOf(s1, root) <= others;
      SubsetSize(ReadysOf(s1, root), others);
      EnoughReadys(cfg, h, root);
    }
  }

  lemma EnoughReadys(cfg: Config, h: History, root: Digest)
    requires |ReadyVoters(cfg, h, root) - {cfg.net.ourId}| > cfg.net.NumFaulty()
    ensures ReadyJustified(cfg, h, root)
  {
  }

  lemma SendReadyOk(cfg: Config, h: History, s: State, root: Digest)
    requires IsConfig(cfg) && NodeInv(cfg, h, s) && !s.readySent && ReadyJustified(cfg, h, root)
    ensures NodeOk(cfg, h, SendReady(cfg, s, root))
    decreases 0, 1
  {
    var s1 := s.(readySent := true);
    SetReadySent(cfg, h, s);
    hide NodeInv, ReadyJustified;
    if !cfg.net.IsValidator() {
      NodeOkQuiet(cfg, h, Outcome(s1, NO_STEP));
    } else {
      MulticastOk(cfg, h, Ready(root), s1);
      ExtendMulticast(cfg, h, Ready(root));
      HandleReadyOk(cfg, Multicast(cfg, h, Ready(root)), s1, cfg.net.ourId, root);
      NodeOkJoin(cfg, h, Step([(All, Ready(root))], [], []), HandleReady(cfg, s1, cfg.net.ourId, root));
    }
  }

  lemma SetReadySent(cfg: Config, h: History, s: State)
    requires NodeInv(cfg, h, s) && !s.readySent
    ensures NodeInv(cfg, h, s.(readySent := true))
    ensures forall d :: (cfg.net.ourId, Ready(d)) !in h.heard
  {
  }

  lemma HandleEchoOk(cfg: Config, h: History, s: State, sender: nat, p: Proof)
    requires IsConfig(cfg) && NodeInv(cfg, h, s)
    requires (sender, Echo(p)) in h.heard
    ensures NodeOk(cfg, h, HandleEcho(cfg, s, sender, p))
  {
    if sender in s.echos || !ValidProof(cfg, p, sender) {
      NodeOkQuiet(cfg, h, HandleEcho(cfg, s, sender, p));
    } else {
      var s1 := s.(echos := s.echos[sender := p]);
      AddEcho(cfg, h, s, sender, p);
      hide NodeInv;
      if s1.readySent || |EchosOf(s1, p.rootHash)| < cfg.net.NumCorrect() {
        ComputeOutputOk(cfg, h, s1, p.rootHash);
      } else {
        SendReadyOk(cfg, h, s1, p.rootHash);
      }
    }
  }

  lemma AddEcho(cfg: Config, h: History, s: State, sender: nat, p: Proof)
    requires NodeInv(cfg, h, s)
    requires (sender, Echo(p)) in h.heard && ValidProof(cfg, p, sender)
    ensures var s1 := s.(echos := s.echos[sender := p]);
            && NodeInv(cfg, h, s1)
            && (|EchosOf(s1, p.rootHash)| >= cfg.net.NumCorrect() ==> ReadyJustified(cfg, h, p.rootHash))
  {
    var s1 := s.(echos := s.echos[sender := p]);
    assert Received(cfg, h, s1);
    forall id | id in EchosOf(s1, p.rootHash) ensures id in EchoVoters(cfg, h, p.rootHash) {
      assert (id, Echo(s1.echos[id])) in h.heard;
    }
    SubsetSize(EchosOf(s1, p.rootHash), EchoVoters(cfg, h, p.rootHash));
  }

  lemma HandleValueOk(cfg: Config, h: History, s: State, sender: nat, p: Proof)
    requires IsConfig(cfg) && NodeInv(cfg, h, s)
    requires sender == cfg.proposerId ==> (sender, Value(p)) in h.heard || OwnProof(cfg, h, cfg.net.ourId, p)
    ensures NodeOk(cfg, h, HandleValue(cfg, s, sender, p))
  {
    if sender != cfg.proposerId || s.echoSent || !ValidProof(cfg, p, cfg.net.ourId) {
      NodeOkQuiet(cfg, h, HandleValue(cfg, s, sender, p));
    } else {
      var s1 := s.(echoSent := true);
      SetEchoSent(cfg, h, s);
      assert EchoJustified(cfg, h, p);
      hide NodeInv, EchoJustified;
      if !cfg.net.IsValidator() {
        NodeOkQuiet(cfg, h, Outcome(s1, NO_STEP));
      } else {
        MulticastEchoOk(cfg, h, p, s1);
        ExtendMulticast(cfg, h, Echo(p));
        HandleEchoOk(cfg, Multicast(cfg, h, Echo(p)), s1, cfg.net.ourId, p);
        NodeOkJoin(cfg, h, Step([(All, Echo(p))], [], []), HandleEcho(cfg, s1, cfg.net.ourId, p));
      }
    }
  }

  lemma SetEchoSent(cfg: Config, h: History, s: State)
    requires NodeInv(cfg, h, s) && !s.echoSent
    ensures NodeInv(cfg, h, s.(echoSent := true))
    ensures forall q :: (cfg.net.ourId, Echo(q)) !in h.heard
  {
  }

  lemma HandleMessageOk(cfg: Config, h: History, s: State, sender: nat, msg: Message)
    requires IsConfig(cfg) && NodeInv(cfg, h, s)
    requires sender < cfg.net.n && (sender, msg) in h.heard
    ensures var r := HandleMessage(cfg, s, sender, msg);
            r.Done? && NodeOk(cfg, h, Outcome(r.state, r.step))
  {
    hide NodeInv;
    match msg {
      case Value(p) => HandleValueOk(cfg, h, s, sender, p);
      case Echo(p) => HandleEchoOk(cfg, h, s, sender, p);
      case Ready(root) => HandleReadyOk(cfg, h, s, sender, root);
    }
  }

  // ----- The proposer -----

  lemma {:induction false} ValueMessagesAre(cfg: Config, shards: seq<Bytes>, count: nat)
    requires count <= |shards|
    ensures forall m :: m in ValueMessages(cfg, shards, count) <==>
              exists id: nat :: id < count && id != cfg.net.ourId && m == ValueFor(cfg, shards, id)
  {
    if count > 0 {
      ValueMessagesAre(cfg, shards, count - 1);
      var before := ValueMessages(cfg, shards, count - 1);
      forall m | m in ValueMessages(cfg, shards, count) && m !in before
        ensures exists id: nat :: id < count && id != cfg.net.ourId && m == ValueFor(cfg, shards, id)
      {
        assert m == ValueFor(cfg, shards, count - 1);
      }
      forall id: nat | id < count && id != cfg.net.ourId
        ensures ValueFor(cfg, shards, id) in ValueMessages(cfg, shards, count)
      {
        if id < count - 1 {
          assert ValueFor(cfg, shards, id) in before;
        }
      }
    }
  }

  function ValueFor(cfg: Config, shards: seq<Bytes>, id: nat): (Target, Message) {
    (Node(id), Value(if id < |shards| then ProofOf(cfg.hash, shards, id) else Proof([], 0, [], Digest(0))))
  }

  /** Before its input, the proposer has sent nothing, so all it ever sends matches it. */
  lemma BroadcastOk(cfg: Config, h: History, s: State, input: Bytes)
    requires IsConfig(cfg) && NodeInv(cfg, h, s)
    requires cfg.net.ourId == cfg.proposerId && !s.valueSent && cfg.net.IsValidator()
    ensures var r := Broadcast(cfg, s, input);
            r.Done? && NodeOk(cfg, h.(input := Some(input)), Outcome(r.state, r.step))
  {
    var shards := Shards(cfg.coding, input);
    ShardsAreCodeword(cfg.coding, input);
    var s1 := s.(valueSent := true);
    var h1 := h.(input := Some(input));
    var sent := Step(ValueMessages(cfg, shards, cfg.net.n), [], []);
    var h2 := Extend(cfg, h1, sent);
    ProposerOk(cfg, h, s, input);
    hide NodeInv;
    HandleValueOk(cfg, h2, s1, cfg.net.ourId, ProofOf(cfg.hash, shards, cfg.net.ourId));
    NodeOkJoin(cfg, h1, sent, HandleValue(cfg, s1, cfg.net.ourId, ProofOf(cfg.hash, shards, cfg.net.ourId)));
  }

  lemma NothingSent(cfg: Config, h: History, valueSent: bool)
    requires OwnSent(cfg, h, valueSent) && !valueSent
    ensures h.input.None? && forall id, m :: (Node(id), m) !in h.sent
  {
    hide OwnProof;
    assert h.input.None?;
    forall id, m ensures (Node(id), m) !in h.sent {
      if (Node(id), m) in h.sent {
        NoInputNoProof(cfg, h, id, m.p);
      }
    }
  }

  lemma NoInputNoProof(cfg: Config, h: History, id: nat, p: Proof)
    requires h.input.None?
    ensures !OwnProof(cfg, h, id, p)
  {
  }

  /** What the proposer sends to the other nodes: to each its own proof. */
  lemma ProposerSends(cfg: Config, h: History, input: Bytes)
    requires IsConfig(cfg) && cfg.net.ourId == cfg.proposerId
    ensures var shards := Shards(cfg.coding, input);
            && |shards| == cfg.net.n
            && var h1 := h.(input := Some(input));
               var h2 := Extend(cfg, h1, Step(ValueMessages(cfg, shards, cfg.net.n), [], []));
               && h2.heard == h.heard && h2.outputs == h.outputs && h2.input == Some(input)
               && (forall t, m :: (t, m) in h2.sent && (t, m) !in h.sent ==>
                     t.Node? && m.Value? && OwnProof(cfg, h1, t.id, m.p))
  {
    hide ValueMessages, Shards, ProofOf, Lawful;
    var shards := Shards(cfg.coding, input);
    assert IsConfig(cfg) && Lawful(cfg.coding);
    ShardsAreCodeword(cfg.coding, input);
    PositiveShards(cfg);
    var h1 := h.(input := Some(input));
    var messages := ValueMessages(cfg, shards, cfg.net.n);
    var h2 := Extend(cfg, h1, Step(messages, [], []));
    ValueMessagesAre(cfg, shards, cfg.net.n);
    assert forall m :: m in messages ==> m.0 != All;
    assert h2.heard == h.heard;
    assert h2.outputs == h.outputs;
    forall t, m | (t, m) in h2.sent && (t, m) !in h.sent
      ensures t.Node? && m.Value? && OwnProof(cfg, h1, t.id, m.p)
    {
      assert (t, m) in messages;
    }
  }

  lemma PositiveShards(cfg: Config)
    requires IsConfig(cfg)
    ensures cfg.coding.dataShards > 0
  {
  }

  lemma ProposerOk(cfg: Config, h: History, s: State, input: Bytes)
    requires IsConfig(cfg) && NodeInv(cfg, h, s)
    requires cfg.net.ourId == cfg.proposerId && !s.valueSent && cfg.net.IsValidator()
    ensures var shards := Shards(cfg.coding, input);
            && |shards| == cfg.net.n
            && var h2 := Extend(cfg, h.(input := Some(input)), Step(ValueMessages(cfg, shards, cfg.net.n), [], []));
               && NodeInv(cfg, h2, s.(valueSent := true))
               && OwnProof(cfg, h2, cfg.net.ourId, ProofOf(cfg.hash, shards, cfg.net.ourId))
  {
    ProposerSends(cfg, h, input);
    NothingSent(cfg, h, s.valueSent);
    PositiveShards(cfg);
    hide ReadyJustified, OutputCert, ValidProof, Shards, Lawful, ValueMessages, ProofOf, Extend, IsConfig;
    var shards := Shards(cfg.coding, input);
    var h1 := h.(input := Some(input));
    var h2 := Extend(cfg, h1, Step(ValueMessages(cfg, shards, cfg.net.n), [], []));
    HeardSame(cfg, h, h2, s);
    SentValues(cfg, h, h1, h2);
    assert OwnProof(cfg, h2, cfg.net.ourId, ProofOf(cfg.hash, shards, cfg.net.ourId));
    hide OwnProof, Received, OwnEcho, OwnReady, OwnOutput, OwnSent;
  }

  lemma SentValues(cfg: Config, h: History, h1: History, h2: History)
    requires OwnSent(cfg, h, false) && cfg.net.ourId == cfg.proposerId
    requires h2.heard == h.heard && h2.input == h1.input
    requires forall id, m :: (Node(id), m) !in h.sent
    requires forall t, m :: (t, m) in h2.sent && (t, m) !in h.sent ==>
               t.Node? && m.Value? && OwnProof(cfg, h1, t.id, m.p)
    ensures OwnSent(cfg, h2, true)
  {
    hide OwnProof;
    forall id, m | (Node(id), m) in h2.sent ensures m.Value? && OwnProof(cfg, h2, id, m.p) {
      ProofsKeep(cfg, h1, h2, id, m.p);
    }
    forall m | (All, m) in h2.sent ensures (cfg.net.ourId, m) in h2.heard && !m.Value? {
      assert (All, m) in h.sent;
    }
  }

  /** Giving the proposer its input leaves its claims about messages as they are. */
  lemma HeardSame(cfg: Config, h: History, h2: History, s: State)
    requires NodeInv(cfg, h, s) && h.input.None?
    requires h2.heard == h.heard && h2.outputs == h.outputs
    ensures Received(cfg, h2, s) && OwnEcho(cfg, h2, s.echoSent)
    ensures OwnReady(cfg, h2, s.readySent) && OwnOutput(cfg, h2, s.decided)
  {
    hide ReadyJustified, OutputCert, ValidProof;
    forall d | (cfg.net.ourId, Ready(d)) in h2.heard ensures ReadyJustified(cfg, h2, d) {
      VotersGrow(cfg, h, h2, d);
    }
    forall i | 0 <= i < |h2.outputs| ensures OutputCert(cfg, h2, h2.outputs[i]) {
      OutputCertGrows(cfg, h, h2, h.outputs[i]);
    }
  }
}
