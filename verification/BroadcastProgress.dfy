/** What a node of a Reliable Broadcast has certainly done once it has handled the
    messages it has heard. */
module BroadcastProgress {
  import opened Options
  import opened Quorums
  import opened Merkle
  import opened ErasureCoding
  import opened BroadcastSpec
  import opened BroadcastNode

  // ----- Claims about the state alone -----

  /** `f + 1` `Ready`s or `N - f` `Echo`s for one root make us send our `Ready`. */
  ghost predicate Amplified(cfg: Config, s: State, root: Digest) {
    |ReadysOf(s, root)| > cfg.net.NumFaulty() || |EchosOf(s, root)| >= cfg.net.NumCorrect() ==> s.readySent
  }

  /** Unless the shards for this root cannot be decoded, we do not miss the output. */
  ghost predicate Quiet(cfg: Config, s: State, root: Digest) {
    !s.decided && IsRipe(cfg, s, root) ==> Decoded(cfg, s, root).None?
  }

  ghost predicate QuietBut(cfg: Config, s: State, root: Digest) {
    forall d :: d != root ==> Quiet(cfg, s, d)
  }

  ghost predicate Prompt(cfg: Config, s: State) {
    && (forall d :: Amplified(cfg, s, d))
    && (!s.readySent ==> cfg.net.ourId !in s.readys)
  }

  ghost predicate StateLive(cfg: Config, s: State) {
    Prompt(cfg, s) && forall d :: Quiet(cfg, s, d)
  }

  lemma ComputeOutputLive(cfg: Config, s: State, root: Digest)
    requires Prompt(cfg, s) && QuietBut(cfg, s, root)
    ensures StateLive(cfg, ComputeOutput(cfg, s, root).state)
  {
    hide DecodeFromShards;
    var s' := ComputeOutput(cfg, s, root).state;
    forall d ensures Quiet(cfg, s', d) && Amplified(cfg, s', d) {
      assert d != root ==> Quiet(cfg, s, d);
      assert Amplified(cfg, s, d);
      assert ReadysOf(s', d) == ReadysOf(s, d) && EchosOf(s', d) == EchosOf(s, d);
      assert LeafValues(cfg, s', d) == LeafValues(cfg, s, d);
    }
  }

  /** One more `Ready` matters only for its root. */
  lemma AddedReady(cfg: Config, s: State, sender: nat, root: Digest)
    requires sender !in s.readys && Prompt(cfg, s) && QuietBut(cfg, s, root)
    ensures var s1 := s.(readys := s.readys[sender := root]);
            && QuietBut(cfg, s1, root)
            && (forall d :: d != root ==> Amplified(cfg, s1, d))
            && (|ReadysOf(s1, root)| != cfg.net.NumFaulty() + 1 || s.readySent ==> Amplified(cfg, s1, root))
  {
    hide DecodeFromShards;
    var s1 := s.(readys := s.readys[sender := root]);
    forall d ensures EchosOf(s1, d) == EchosOf(s, d) && LeafValues(cfg, s1, d) == LeafValues(cfg, s, d) {
    }
    forall d | d != root ensures Quiet(cfg, s1, d) && Amplified(cfg, s1, d) {
      assert ReadysOf(s1, d) == ReadysOf(s, d);
      assert Quiet(cfg, s, d) && Amplified(cfg, s, d);
    }
    assert ReadysOf(s1, root) == ReadysOf(s, root) + {sender};
    assert Amplified(cfg, s, root);
  }

  lemma {:induction false} FreshReadyLive(cfg: Config, s: State, sender: nat, root: Digest)
    requires sender !in s.readys && Prompt(cfg, s) && QuietBut(cfg, s, root)
    requires sender == cfg.net.ourId ==> s.readySent
    ensures StateLive(cfg, HandleReady(cfg, s, sender, root).state)
    decreases Unready(s), 0
  {
    hide Quiet, Decoded, DecodeFromShards;
    var s1 := s.(readys := s.readys[sender := root]);
    AddedReady(cfg, s, sender, root);
    if |ReadysOf(s1, root)| == cfg.net.NumFaulty() + 1 && !s1.readySent {
      SendReadyLive(cfg, s1, root);
      ComputeOutputLive(cfg, SendReady(cfg, s1, root).state, root);
    } else {
      ComputeOutputLive(cfg, s1, root);
    }
  }

  lemma {:induction false} SendReadyLive(cfg: Config, s: State, root: Digest)
    requires !s.readySent && cfg.net.ourId !in s.readys && QuietBut(cfg, s, root)
    ensures var s' := SendReady(cfg, s, root).state;
            && Prompt(cfg, s') && QuietBut(cfg, s', root)
            && (cfg.net.IsValidator() ==> StateLive(cfg, s'))
            && (!cfg.net.IsValidator() ==> s' == s.(readySent := true))
    decreases 0, 1
  {
    hide HandleReady;
    var s1 := s.(readySent := true);
    SetReadySentQuiet(cfg, s, root);
    if cfg.net.IsValidator() {
      FreshReadyLive(cfg, s1, cfg.net.ourId, root);
    }
  }

  lemma SetReadySentQuiet(cfg: Config, s: State, root: Digest)
    requires QuietBut(cfg, s, root)
    ensures QuietBut(cfg, s.(readySent := true), root)
  {
    hide DecodeFromShards;
    var s1 := s.(readySent := true);
    forall d | d != root ensures Quiet(cfg, s1, d) {
      assert ReadysOf(s1, d) == ReadysOf(s, d) && EchosOf(s1, d) == EchosOf(s, d);
      assert LeafValues(cfg, s1, d) == LeafValues(cfg, s, d);
      assert Quiet(cfg, s, d);
    }
  }

  lemma HandleReadyLive(cfg: Config, s: State, sender: nat, root: Digest)
    requires StateLive(cfg, s) && sender != cfg.net.ourId
    ensures StateLive(cfg, HandleReady(cfg, s, sender, root).state)
  {
    hide Quiet, Amplified;
    if sender !in s.readys {
      FreshReadyLive(cfg, s, sender, root);
    }
  }

  lemma AddedEcho(cfg: Config, s: State, sender: nat, p: Proof)
    requires sender !in s.echos && StateLive(cfg, s)
    ensures var s1 := s.(echos := s.echos[sender := p]);
            && QuietBut(cfg, s1, p.rootHash)
            && (forall d :: d != p.rootHash ==> Amplified(cfg, s1, d))
            && (s1.readySent || |EchosOf(s1, p.rootHash)| < cfg.net.NumCorrect() ==> Amplified(cfg, s1, p.rootHash))
            && (!s1.readySent ==> !IsRipe(cfg, s1, p.rootHash))
  {
    hide DecodeFromShards;
    var s1 := s.(echos := s.echos[sender := p]);
    var root := p.rootHash;
    forall d ensures ReadysOf(s1, d) == ReadysOf(s, d) {
    }
    forall d | d != root ensures Quiet(cfg, s1, d) && Amplified(cfg, s1, d) {
      assert EchosOf(s1, d) == EchosOf(s, d);
      assert LeafValues(cfg, s1, d) == LeafValues(cfg, s, d);
      assert Quiet(cfg, s, d) && Amplified(cfg, s, d);
    }
    assert Amplified(cfg, s, root);
  }

  lemma HandleEchoLive(cfg: Config, s: State, sender: nat, p: Proof)
    requires StateLive(cfg, s)
    ensures StateLive(cfg, HandleEcho(cfg, s, sender, p).state)
  {
    hide Decoded, SendReady, HandleReady, ComputeOutput, ValidProof;
    if sender !in s.echos && ValidProof(cfg, p, sender) {
      var s1 := s.(echos := s.echos[sender := p]);
      AddedEcho(cfg, s, sender, p);
      if s1.readySent || |EchosOf(s1, p.rootHash)| < cfg.net.NumCorrect() {
        ComputeOutputLive(cfg, s1, p.rootHash);
      } else {
        SendReadyLive(cfg, s1, p.rootHash);
        var s2 := s1.(readySent := true);
        assert ReadysOf(s2, p.rootHash) == ReadysOf(s1, p.rootHash);
        assert EchosOf(s2, p.rootHash) == EchosOf(s1, p.rootHash);
        assert Quiet(cfg, s2, p.rootHash);
      }
    }
  }

  lemma HandleValueLive(cfg: Config, s: State, sender: nat, p: Proof)
    requires StateLive(cfg, s)
    ensures StateLive(cfg, HandleValue(cfg, s, sender, p).state)
  {
    hide HandleEcho, ValidProof;
    SetEchoSentLive(cfg, s);
    HandleEchoLive(cfg, s.(echoSent := true), cfg.net.ourId, p);
  }

  lemma SetEchoSentLive(cfg: Config, s: State)
    requires StateLive(cfg, s)
    ensures StateLive(cfg, s.(echoSent := true))
    ensures StateLive(cfg, s.(valueSent := true))
  {
    hide DecodeFromShards;
    forall s1 | s1 == s.(echoSent := true) || s1 == s.(valueSent := true)
      ensures StateLive(cfg, s1)
    {
      forall d ensures Quiet(cfg, s1, d) && Amplified(cfg, s1, d) {
        assert ReadysOf(s1, d) == ReadysOf(s, d) && EchosOf(s1, d) == EchosOf(s, d);
        assert LeafValues(cfg, s1, d) == LeafValues(cfg, s, d);
        assert Quiet(cfg, s, d) && Amplified(cfg, s, d);
      }
    }
  }

  // ----- Claims about what has been handled -----

  /** How a call changes the state, and how this shows in what it sends. */
  ghost predicate Effect(cfg: Config, s: State, r: Outcome) {
    && s.echos.Keys <= r.state.echos.Keys && s.readys.Keys <= r.state.readys.Keys
    && (s.valueSent ==> r.state.valueSent)
    && (s.echoSent ==> r.state.echoSent) && (s.readySent ==> r.state.readySent)
    && (r.state.echoSent && !s.echoSent && cfg.net.IsValidator() ==> EchoIn(r.step))
    && (r.state.readySent && !s.readySent && cfg.net.IsValidator() ==> ReadyIn(r.step))
    && (forall d :: (All, Ready(d)) in r.step.messages ==> cfg.net.ourId in r.state.readys)
    && (forall p :: (All, Echo(p)) in r.step.messages ==> cfg.net.ourId in r.state.echos)
    && (forall p :: (All, Value(p)) !in r.step.messages)
  }

  ghost predicate EchoIn(step: Step) {
    exists p :: (All, Echo(p)) in step.messages
  }

  ghost predicate ReadyIn(step: Step) {
    exists d :: (All, Ready(d)) in step.messages
  }

  lemma EffectTwice(cfg: Config, s: State, r: Outcome, r2: Outcome)
    requires Effect(cfg, s, r) && Effect(cfg, r.state, r2)
    ensures Effect(cfg, s, Outcome(r2.state, r.step.Join(r2.step)))
  {
    var step := r.step.Join(r2.step);
    assert forall m :: m in r.step.messages ==> m in step.messages;
    assert forall m :: m in r2.step.messages ==> m in step.messages;
  }

  lemma ComputeOutputEffect(cfg: Config, s: State, root: Digest)
    ensures Effect(cfg, s, ComputeOutput(cfg, s, root))
  {
    hide Decoded, IsRipe;
  }

  lemma {:induction false} HandleReadyEffect(cfg: Config, s: State, sender: nat, root: Digest)
    ensures Effect(cfg, s, HandleReady(cfg, s, sender, root))
    ensures sender in HandleReady(cfg, s, sender, root).state.readys
    decreases Unready(s), 0
  {
    hide ComputeOutput, ReadysOf;
    if sender !in s.readys {
      var s1 := s.(readys := s.readys[sender := root]);
      if |ReadysOf(s1, root)| == cfg.net.NumFaulty() + 1 && !s1.readySent {
        SendReadyEffect(cfg, s1, root);
        var r1 := SendReady(cfg, s1, root);
        ComputeOutputEffect(cfg, r1.state, root);
        EffectTwice(cfg, s1, r1, ComputeOutput(cfg, r1.state, root));
      } else {
        ComputeOutputEffect(cfg, s1, root);
      }
    }
  }

  lemma {:induction false} SendReadyEffect(cfg: Config, s: State, root: Digest)
    requires !s.readySent
    ensures Effect(cfg, s, SendReady(cfg, s, root))
    decreases 0, 1
  {
    hide HandleReady;
    var s1 := s.(readySent := true);
    if cfg.net.IsValidator() {
      HandleReadyEffect(cfg, s1, cfg.net.ourId, root);
      var r := HandleReady(cfg, s1, cfg.net.ourId, root);
      var step := Step([(All, Ready(root))], [], []).Join(r.step);
      assert step.messages[0] == (All, Ready(root));
      assert forall m :: m in step.messages <==> m == (All, Ready(root)) || m in r.step.messages;
    }
  }

  lemma HandleEchoEffect(cfg: Config, s: State, sender: nat, p: Proof)
    ensures Effect(cfg, s, HandleEcho(cfg, s, sender, p))
    ensures ValidProof(cfg, p, sender) ==> sender in HandleEcho(cfg, s, sender, p).state.echos
  {
    hide ComputeOutput, SendReady, EchosOf, ValidProof;
    if sender !in s.echos && ValidProof(cfg, p, sender) {
      var s1 := s.(echos := s.echos[sender := p]);
      if s1.readySent || |EchosOf(s1, p.rootHash)| < cfg.net.NumCorrect() {
        ComputeOutputEffect(cfg, s1, p.rootHash);
      } else {
        SendReadyEffect(cfg, s1, p.rootHash);
      }
    }
  }

  lemma HandleValueEffect(cfg: Config, s: State, sender: nat, p: Proof)
    ensures Effect(cfg, s, HandleValue(cfg, s, sender, p))
    ensures sender == cfg.proposerId && ValidProof(cfg, p, cfg.net.ourId) ==>
              HandleValue(cfg, s, sender, p).state.echoSent
  {
    hide HandleEcho, ValidProof;
    var s1 := s.(echoSent := true);
    if sender == cfg.proposerId && !s.echoSent && ValidProof(cfg, p, cfg.net.ourId) && cfg.net.IsValidator() {
      HandleEchoEffect(cfg, s1, cfg.net.ourId, p);
      var r := HandleEcho(cfg, s1, cfg.net.ourId, p);
      var step := Step([(All, Echo(p))], [], []).Join(r.step);
      assert step.messages[0] == (All, Echo(p));
      assert forall m :: m in step.messages <==> m == (All, Echo(p)) || m in r.step.messages;
    }
  }

  /** Every message heard has left its mark. */
  ghost predicate Handled(cfg: Config, h: History, s: State) {
    && (forall id, d :: (id, Ready(d)) in h.heard && id < cfg.net.n ==> id in s.readys)
    && (forall id, p :: (id, Echo(p)) in h.heard && ValidProof(cfg, p, id) ==> id in s.echos)
    && (forall id, p :: (id, Value(p)) in h.heard && id == cfg.proposerId < cfg.net.n && ValidProof(cfg, p, cfg.net.ourId) ==>
          s.echoSent)
  }

  /** What a validator has done, everyone has been told. */
  ghost predicate Announced(cfg: Config, h: History, s: State) {
    && (s.echoSent && cfg.net.IsValidator() ==> exists p :: (All, Echo(p)) in h.sent)
    && (s.readySent && cfg.net.IsValidator() ==> exists d :: (All, Ready(d)) in h.sent)
  }

  /** The proposer has sent everyone their proof, and echoed its own. */
  ghost predicate Shared(cfg: Config, h: History, s: State) {
    h.input.Some? ==>
      && s.echoSent
      && forall id: nat :: id < cfg.net.n && id != cfg.net.ourId ==>
           WasSentValue(h, id)
  }

  ghost predicate WasSentValue(h: History, id: nat) {
    exists p :: (Node(id), Value(p)) in h.sent
  }

  ghost predicate Live(cfg: Config, h: History, s: State) {
    StateLive(cfg, s) && Handled(cfg, h, s) && Announced(cfg, h, s) && Shared(cfg, h, s)
  }

  lemma EffectAnnounced(cfg: Config, h: History, s: State, r: Outcome)
    requires Announced(cfg, h, s) && Effect(cfg, s, r)
    ensures Announced(cfg, Extend(cfg, h, r.step), r.state)
  {
    var h' := Extend(cfg, h, r.step);
    assert h.sent <= h'.sent;
    if r.state.echoSent && !s.echoSent && cfg.net.IsValidator() {
      var p :| (All, Echo(p)) in r.step.messages;
      assert (All, Echo(p)) in h'.sent;
    }
    if r.state.readySent && !s.readySent && cfg.net.IsValidator() {
      var d :| (All, Ready(d)) in r.step.messages;
      assert (All, Ready(d)) in h'.sent;
    }
  }

  lemma EffectHandled(cfg: Config, h: History, s: State, r: Outcome)
    requires Handled(cfg, h, s) && Effect(cfg, s, r)
    ensures Handled(cfg, Extend(cfg, h, r.step), r.state)
  {
    hide ValidProof, EchoIn, ReadyIn;
  }

  lemma EffectShared(cfg: Config, h: History, s: State, r: Outcome)
    requires Shared(cfg, h, s) && Effect(cfg, s, r)
    ensures Shared(cfg, Extend(cfg, h, r.step), r.state)
  {
    hide EchoIn, ReadyIn;
    var h' := Extend(cfg, h, r.step);
    if h'.input.Some? {
      forall id: nat | WasSentValue(h, id) ensures WasSentValue(h', id) {
        var p :| (Node(id), Value(p)) in h.sent;
        assert (Node(id), Value(p)) in h'.sent;
      }
    }
  }

  lemma HandleMessageLive(cfg: Config, h: History, s: State, sender: nat, msg: Message)
    requires Live(cfg, h, s) && sender < cfg.net.n && sender != cfg.net.ourId
    ensures var r := HandleMessage(cfg, s, sender, msg);
            r.Done? && Live(cfg, Extend(cfg, h.(heard := h.heard + {(sender, msg)}), r.step), r.state)
  {
    hide Handled, Announced, Shared, StateLive, Effect;
    var h1 := h.(heard := h.heard + {(sender, msg)});
    var r := HandleMessage(cfg, s, sender, msg);
    MessageEffect(cfg, h, s, sender, msg);
    assert Announced(cfg, h1, s) && Shared(cfg, h1, s) by {
      StaysAnnounced(cfg, h, h1, s);
    }
    EffectAnnounced(cfg, h1, s, Outcome(r.state, r.step));
    EffectShared(cfg, h1, s, Outcome(r.state, r.step));
    HandledMessage(cfg, h, s, sender, msg, Outcome(r.state, r.step));
    match msg {
      case Value(p) => HandleValueLive(cfg, s, sender, p);
      case Echo(p) => HandleEchoLive(cfg, s, sender, p);
      case Ready(root) => HandleReadyLive(cfg, s, sender, root);
    }
  }

  lemma StaysAnnounced(cfg: Config, h: History, h1: History, s: State)
    requires h1.sent == h.sent && h1.input == h.input
    ensures Announced(cfg, h, s) ==> Announced(cfg, h1, s)
    ensures Shared(cfg, h, s) ==> Shared(cfg, h1, s)
  {
    assert forall id: nat :: WasSentValue(h, id) <==> WasSentValue(h1, id);
  }

  /** The message that was delivered has left its mark. */
  ghost predicate Marked(cfg: Config, s: State, sender: nat, msg: Message) {
    match msg
    case Value(p) => sender == cfg.proposerId && ValidProof(cfg, p, cfg.net.ourId) ==> s.echoSent
    case Echo(p) => ValidProof(cfg, p, sender) ==> sender in s.echos
    case Ready(d) => sender in s.readys
  }

  lemma MessageEffect(cfg: Config, h: History, s: State, sender: nat, msg: Message)
    requires sender < cfg.net.n
    ensures var r := HandleMessage(cfg, s, sender, msg);
            && r.Done? && Effect(cfg, s, Outcome(r.state, r.step))
            && Marked(cfg, r.state, sender, msg)
  {
    hide Effect, ValidProof;
    match msg {
      case Value(p) => HandleValueEffect(cfg, s, sender, p);
      case Echo(p) => HandleEchoEffect(cfg, s, sender, p);
      case Ready(root) => HandleReadyEffect(cfg, s, sender, root);
    }
  }

  lemma HandledMessage(cfg: Config, h: History, s: State, sender: nat, msg: Message, r: Outcome)
    requires Handled(cfg, h, s) && sender < cfg.net.n
    requires Effect(cfg, s, r) && Marked(cfg, r.state, sender, msg)
    ensures Handled(cfg, Extend(cfg, h.(heard := h.heard + {(sender, msg)}), r.step), r.state)
  {
    hide ValidProof, EchoIn, ReadyIn;
  }

  /** A message from outside the validators is not handled, and need not be. */
  lemma UnknownSenderLive(cfg: Config, h: History, s: State, sender: nat, msg: Message)
    requires Live(cfg, h, s) && sender >= cfg.net.n
    ensures Live(cfg, h.(heard := h.heard + {(sender, msg)}), s)
  {
    hide StateLive;
    StaysAnnounced(cfg, h, h.(heard := h.heard + {(sender, msg)}), s);
  }

  lemma BroadcastLive(cfg: Config, h: History, s: State, input: Bytes)
    requires IsConfig(cfg) && Live(cfg, h, s)
    requires cfg.net.ourId == cfg.proposerId && !s.valueSent && cfg.net.IsValidator()
    ensures var r := Broadcast(cfg, s, input);
            r.Done? && Live(cfg, Extend(cfg, h.(input := Some(input)), r.step), r.state)
  {
    hide Handled, Announced, Shared, StateLive, Effect, IsConfig, HandleValue, Shards, ProofOf, ValidProof;
    PositiveShards(cfg);
    ProposerSends(cfg, h, input);
    var shards := Shards(cfg.coding, input);
    var s1 := s.(valueSent := true);
    var h1 := h.(input := Some(input));
    var own := ProofOf(cfg.hash, shards, cfg.net.ourId);
    var sent := Step(ValueMessages(cfg, shards, cfg.net.n), [], []);
    var h2 := Extend(cfg, h1, sent);
    var r := HandleValue(cfg, s1, cfg.net.ourId, own);
    OwnProofValid(cfg, shards);
    SetEchoSentLive(cfg, s);
    HandleValueLive(cfg, s1, cfg.net.ourId, own);
    HandleValueEffect(cfg, s1, cfg.net.ourId, own);
    InputHandled(cfg, h, h2, s);
    EffectAnnounced(cfg, h2, s1, r);
    EffectHandled(cfg, h2, s1, r);
    ExtendTwice(cfg, h1, sent, r.step);
    SharedNow(cfg, h1, shards, r);
  }

  lemma OwnProofValid(cfg: Config, shards: seq<Bytes>)
    requires cfg.net.IsValidator() && |shards| == cfg.net.n
    ensures ValidProof(cfg, ProofOf(cfg.hash, shards, cfg.net.ourId), cfg.net.ourId)
  {
    ProofsAreValid(cfg.hash, shards, cfg.net.ourId);
  }

  lemma InputHandled(cfg: Config, h: History, h2: History, s: State)
    requires h2.heard == h.heard && h.sent <= h2.sent
    ensures Handled(cfg, h, s) ==> Handled(cfg, h2, s.(valueSent := true))
    ensures Announced(cfg, h, s) ==> Announced(cfg, h2, s.(valueSent := true))
  {
  }

  lemma SharedNow(cfg: Config, h1: History, shards: seq<Bytes>, r: Outcome)
    requires |shards| == cfg.net.n && r.state.echoSent
    ensures var sent := Step(ValueMessages(cfg, shards, cfg.net.n), [], []);
            Shared(cfg, Extend(cfg, h1, sent.Join(r.step)), r.state)
  {
    hide ProofOf;
    var messages := ValueMessages(cfg, shards, cfg.net.n);
    ValueMessagesAre(cfg, shards, cfg.net.n);
    var h' := Extend(cfg, h1, Step(messages, [], []).Join(r.step));
    forall id: nat | id < cfg.net.n && id != cfg.net.ourId ensures WasSentValue(h', id) {
      assert ValueFor(cfg, shards, id) in messages;
      assert ValueFor(cfg, shards, id) in h'.sent;
    }
  }
}
