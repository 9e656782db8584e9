/** Whom a node of a Reliable Broadcast accuses: never a correct node. */
module BroadcastFaults {
  import opened Options
  import opened Quorums
  import opened Merkle
  import opened ErasureCoding
  import opened BroadcastSpec
  import opened BroadcastNode
  import opened BroadcastProgress
  import opened BroadcastNetwork
  import opened BroadcastSafety

  /** What a message itself proves against its sender: a `Value` from another node than the
      proposer, or different from the one before; an `Echo` or a `Ready` that contradicts the
      sender's first one; or a proof that is not for the shard of its recipient or sender. */
  ghost predicate Accuses(cfg: Config, s: State, sender: nat, msg: Message, kind: FaultKind) {
    match msg
    case Value(p) =>
      if sender != cfg.proposerId then kind == ReceivedValueFromNonProposer
      else if s.echoSent then kind == MultipleValues && !(cfg.net.ourId in s.echos && s.echos[cfg.net.ourId] == p)
      else kind == InvalidProof && !ProvesShard(cfg, p, cfg.net.ourId)
    case Echo(p) =>
      if sender in s.echos then kind == MultipleEchos && s.echos[sender] != p
      else kind == InvalidProof && !ProvesShard(cfg, p, sender)
    case Ready(d) => kind == MultipleReadys && sender in s.readys && s.readys[sender] != d
  }

  /** The proof is for the shard number `id`, and leads to its root. */
  predicate ProvesShard(cfg: Config, p: Proof, id: nat) {
    p.index == id < cfg.net.n && Climb(cfg.hash, cfg.hash.leaf(p.value), id, cfg.net.n, p.digests) == Some(p.rootHash)
  }

  lemma ProvesIfValid(cfg: Config, p: Proof, id: nat)
    ensures ProvesShard(cfg, p, id) <==> ValidProof(cfg, p, id)
  {
  }

  /** The shards for this root are there, and cannot be decoded. */
  ghost predicate Undecodable(cfg: Config, s: State, root: Digest) {
    IsRipe(cfg, s, root) && Decoded(cfg, s, root).None?
  }

  ghost predicate OnlyDecoding(cfg: Config, r: Outcome) {
    forall f :: f in r.step.faults ==>
      f == Fault(cfg.proposerId, BroadcastDecoding) && exists root :: Undecodable(cfg, r.state, root)
  }

  /** The state that decides whether decoding fails. */
  ghost predicate SameShards(s: State, t: State) {
    s.echos == t.echos && s.readys == t.readys
  }

  lemma SameUndecodable(cfg: Config, s: State, t: State, root: Digest)
    requires SameShards(s, t) && Undecodable(cfg, s, root)
    ensures Undecodable(cfg, t, root)
  {
    hide DecodeFromShards;
    assert ReadysOf(s, root) == ReadysOf(t, root) && EchosOf(s, root) == EchosOf(t, root);
    assert LeafValues(cfg, s, root) == LeafValues(cfg, t, root);
  }

  lemma ComputeOutputFaults(cfg: Config, s: State, root: Digest)
    ensures OnlyDecoding(cfg, ComputeOutput(cfg, s, root)) && SameShards(s, ComputeOutput(cfg, s, root).state)
  {
    hide IsRipe, Decoded;
    if !s.decided && IsRipe(cfg, s, root) && Decoded(cfg, s, root).None? {
      assert Undecodable(cfg, s, root);
    }
  }

  lemma JoinFaults(cfg: Config, a: Outcome, b: Outcome)
    requires OnlyDecoding(cfg, a) && OnlyDecoding(cfg, b) && SameShards(a.state, b.state)
    ensures OnlyDecoding(cfg, Outcome(b.state, a.step.Join(b.step)))
  {
    hide Undecodable;
    if a.step.faults != [] {
      assert a.step.faults[0] in a.step.faults;
      var root :| Undecodable(cfg, a.state, root);
      SameUndecodable(cfg, a.state, b.state, root);
    }
  }

  lemma {:induction false} FreshReadyFaults(cfg: Config, s: State, sender: nat, root: Digest)
    requires sender !in s.readys
    requires s.readySent || (cfg.net.ourId !in s.readys && sender != cfg.net.ourId)
    ensures OnlyDecoding(cfg, HandleReady(cfg, s, sender, root))
    decreases Unready(s), 0
  {
    hide ComputeOutput, ReadysOf, OnlyDecoding;
    var s1 := s.(readys := s.readys[sender := root]);
    if |ReadysOf(s1, root)| == cfg.net.NumFaulty() + 1 && !s1.readySent {
      SendReadyFaults(cfg, s1, root);
      var r1 := SendReady(cfg, s1, root);
      ComputeOutputFaults(cfg, r1.state, root);
      JoinFaults(cfg, r1, ComputeOutput(cfg, r1.state, root));
    } else {
      ComputeOutputFaults(cfg, s1, root);
      NoFaults(cfg, s1);
      JoinFaults(cfg, Outcome(s1, NO_STEP), ComputeOutput(cfg, s1, root));
    }
  }

  lemma NoFaults(cfg: Config, s: State)
    ensures OnlyDecoding(cfg, Outcome(s, NO_STEP))
  {
  }

  lemma {:induction false} SendReadyFaults(cfg: Config, s: State, root: Digest)
    requires !s.readySent && cfg.net.ourId !in s.readys
    ensures OnlyDecoding(cfg, SendReady(cfg, s, root))
    decreases 0, 1
  {
    var s1 := s.(readySent := true);
    if cfg.net.IsValidator() {
      hide HandleReady;
      FreshReadyFaults(cfg, s1, cfg.net.ourId, root);
      var r := HandleReady(cfg, s1, cfg.net.ourId, root);
      assert Step([(All, Ready(root))], [], []).Join(r.step).faults == r.step.faults;
    }
  }

  ghost predicate OnlyDeserved(cfg: Config, s: State, sender: nat, msg: Message, r: Outcome) {
    forall f :: f in r.step.faults ==>
      || (f.id == sender && Accuses(cfg, s, sender, msg, f.kind))
      || (f == Fault(cfg.proposerId, BroadcastDecoding) && exists root :: Undecodable(cfg, r.state, root))
  }

  lemma EchoFaults(cfg: Config, s: State, sender: nat, p: Proof)
    requires !s.readySent ==> cfg.net.ourId !in s.readys
    ensures OnlyDeserved(cfg, s, sender, Echo(p), HandleEcho(cfg, s, sender, p))
  {
    hide SendReady, ComputeOutput, ValidProof, ProvesShard, EchosOf;
    ProvesIfValid(cfg, p, sender);
    if sender !in s.echos && ValidProof(cfg, p, sender) {
      var s1 := s.(echos := s.echos[sender := p]);
      if s1.readySent || |EchosOf(s1, p.rootHash)| < cfg.net.NumCorrect() {
        ComputeOutputFaults(cfg, s1, p.rootHash);
      } else {
        SendReadyFaults(cfg, s1, p.rootHash);
      }
    }
  }

  /** Every fault is deserved: the message proves it, or the shards cannot be decoded. */
  lemma FaultsAreDeserved(cfg: Config, s: State, sender: nat, msg: Message)
    requires Prompt(cfg, s) && sender != cfg.net.ourId
    requires !s.echoSent ==> cfg.net.ourId !in s.echos
    ensures var r := HandleMessage(cfg, s, sender, msg);
            r.Done? ==> OnlyDeserved(cfg, s, sender, msg, Outcome(r.state, r.step))
  {
    hide HandleEcho, ValidProof, OnlyDeserved, Amplified;
    match msg {
      case Value(p) => ValueFaults(cfg, s, sender, p);
      case Echo(p) => EchoFaults(cfg, s, sender, p);
      case Ready(root) => ReadyFaults(cfg, s, sender, root);
    }
  }

  lemma ReadyFaults(cfg: Config, s: State, sender: nat, root: Digest)
    requires !s.readySent ==> cfg.net.ourId !in s.readys
    requires sender != cfg.net.ourId
    ensures OnlyDeserved(cfg, s, sender, Ready(root), HandleReady(cfg, s, sender, root))
  {
    if sender !in s.readys {
      hide HandleReady;
      FreshReadyFaults(cfg, s, sender, root);
    }
  }

  lemma ValueFaults(cfg: Config, s: State, sender: nat, p: Proof)
    requires !s.readySent ==> cfg.net.ourId !in s.readys
    requires !s.echoSent ==> cfg.net.ourId !in s.echos
    ensures OnlyDeserved(cfg, s, sender, Value(p), HandleValue(cfg, s, sender, p))
  {
    hide HandleEcho, ValidProof, ProvesShard;
    ProvesIfValid(cfg, p, cfg.net.ourId);
    if sender == cfg.proposerId && !s.echoSent && ValidProof(cfg, p, cfg.net.ourId) && cfg.net.IsValidator() {
      var s1 := s.(echoSent := true);
      EchoFaults(cfg, s1, cfg.net.ourId, p);
      var r := HandleEcho(cfg, s1, cfg.net.ourId, p);
      assert Step([(All, Echo(p))], [], []).Join(r.step).faults == r.step.faults;
    }
  }

  /** And all that is deserved by the sender is reported. */
  lemma MisbehaviourIsReported(cfg: Config, s: State, sender: nat, msg: Message, kind: FaultKind)
    requires sender < cfg.net.n && Accuses(cfg, s, sender, msg, kind)
    ensures var r := HandleMessage(cfg, s, sender, msg);
            r.Done? && r.state == s && r.step == Step([], [], [Fault(sender, kind)])
  {
    hide SendEcho, SendReady, ComputeOutput;
  }

  /** A new `Ready` or `Echo` that leaves us undecided, with enough messages for its root, has
      found shards that cannot be decoded. The proposer is reported; by observers, too, except
      when they have just become ready by an `Echo`. */
  lemma DecodingIsReported(cfg: Config, s: State, sender: nat, msg: Message, root: Digest)
    requires sender < cfg.net.n && (msg == Ready(root) || (msg.Echo? && msg.p.rootHash == root))
    requires msg.Ready? ==> sender !in s.readys
    requires msg.Echo? ==>
               sender !in s.echos && ProvesShard(cfg, msg.p, sender) && (cfg.net.IsValidator() || s.readySent)
    requires !s.readySent ==> cfg.net.ourId !in s.readys && sender != cfg.net.ourId
    ensures var r := HandleMessage(cfg, s, sender, msg);
            && r.Done?
            && (!r.state.decided && IsRipe(cfg, r.state, root) ==>
                  Fault(cfg.proposerId, BroadcastDecoding) in r.step.faults)
  {
    hide HandleReady, SendReady, ComputeOutput, IsRipe;
    match msg {
      case Ready(_) => ReadyReports(cfg, s, sender, root);
      case Echo(p) =>
        var s1 := s.(echos := s.echos[sender := p]);
        if s1.readySent || |EchosOf(s1, root)| < cfg.net.NumCorrect() {
          OutputReports(cfg, s1, root);
        } else {
          SendReadyReports(cfg, s1, root);
        }
    }
  }

  lemma OutputReports(cfg: Config, s: State, root: Digest)
    ensures var r := ComputeOutput(cfg, s, root);
            !r.state.decided && IsRipe(cfg, r.state, root) ==> Fault(cfg.proposerId, BroadcastDecoding) in r.step.faults
  {
    hide Decoded, IsRipe;
  }

  lemma ReadyReports(cfg: Config, s: State, sender: nat, root: Digest)
    requires sender !in s.readys
    ensures var r := HandleReady(cfg, s, sender, root);
            !r.state.decided && IsRipe(cfg, r.state, root) ==> Fault(cfg.proposerId, BroadcastDecoding) in r.step.faults
  {
    hide ComputeOutput, IsRipe, SendReady, ReadysOf;
    var s1 := s.(readys := s.readys[sender := root]);
    var r1 := if |ReadysOf(s1, root)| == cfg.net.NumFaulty() + 1 && !s1.readySent
              then SendReady(cfg, s1, root) else Outcome(s1, NO_STEP);
    OutputReports(cfg, r1.state, root);
  }

  lemma SendReadyReports(cfg: Config, s: State, root: Digest)
    requires !s.readySent && cfg.net.ourId !in s.readys && cfg.net.IsValidator()
    ensures var r := SendReady(cfg, s, root);
            !r.state.decided && IsRipe(cfg, r.state, root) ==> Fault(cfg.proposerId, BroadcastDecoding) in r.step.faults
  {
    hide HandleReady, IsRipe;
    ReadyReports(cfg, s.(readySent := true), cfg.net.ourId, root);
  }

  // ----- In a network -----

  /** A message of a correct node proves nothing against it. */
  lemma CorrectNotAccused(sys: System, net: Network, i: nat, k: nat, msg: Message, kind: FaultKind)
    requires NetworkInv(sys, net) && i in net && k in net && i != k && k < sys.n
    requires HasSent(net[k].history, i, msg)
    ensures !Accuses(sys.Config(i), net[i].state, k, msg, kind)
  {
    hide NetworkInv, ValidProof, ProvesShard, HasSent, OwnProof;
    if !msg.Ready? {
      ProvesIfValid(sys.Config(i), msg.p, if msg.Echo? then k else i);
    }
    SentIsOwn(sys, net, i, k, msg);
    match msg {
      case Value(p) => CorrectValue(sys, net, i, p);
      case Echo(p) => CorrectEcho(sys, net, i, k, p);
      case Ready(d) => CorrectReady(sys, net, i, k, d);
    }
  }

  /** What a correct node has sent: to all, what it counts itself; to one node, its proof. */
  lemma SentIsOwn(sys: System, net: Network, i: nat, k: nat, msg: Message)
    requires NetworkInv(sys, net) && k in net && HasSent(net[k].history, i, msg)
    ensures !msg.Value? ==> (k, msg) in net[k].history.heard
    ensures msg.Value? ==> k == sys.proposerId && OwnProof(sys.Config(k), net[k].history, i, msg.p)
  {
    hide Received, OwnEcho, OwnReady, OwnOutput, OwnProof, Live, Authentic, ReadysHaveOrigin;
    assert NodeInv(sys.Config(k), net[k].history, net[k].state);
    if msg.Value? {
      assert OwnProof(sys.Config(k), net[k].history, i, msg.p);
      OwnMeansProposer(sys.Config(k), net[k].history, i, msg.p);
    }
  }

  lemma CorrectReady(sys: System, net: Network, i: nat, k: nat, d: Digest)
    requires NetworkInv(sys, net) && i in net && k in net && (k, Ready(d)) in net[k].history.heard
    ensures k in net[i].state.readys ==> net[i].state.readys[k] == d
  {
    hide OwnEcho, OwnReady, OwnSent, OwnOutput, Live, Authentic, ReadysHaveOrigin, ValidProof;
    assert NodeInv(sys.Config(i), net[i].history, net[i].state);
    if k in net[i].state.readys {
      var e := net[i].state.readys[k];
      assert (k, Ready(e)) in net[i].history.heard;
      SentIsHeard(sys, net, i, k, Ready(e));
      ReadyRootsAgree(sys, net, k, k, d, e);
    }
  }

  lemma EchoIsValid(sys: System, net: Network, i: nat, k: nat, p: Proof)
    requires NetworkInv(sys, net) && k in net && (k, Echo(p)) in net[k].history.heard
    ensures ValidProof(sys.Config(i), p, k)
  {
    hide Received, OwnReady, OwnSent, OwnOutput, OwnProof, Live, Authentic, ReadysHaveOrigin, IsConfig, CollisionFree;
    hide IsValid;
    assert NodeInv(sys.Config(k), net[k].history, net[k].state);
    assert EchoJustified(sys.Config(k), net[k].history, p);
  }

  lemma CorrectEcho(sys: System, net: Network, i: nat, k: nat, p: Proof)
    requires NetworkInv(sys, net) && i in net && k in net && (k, Echo(p)) in net[k].history.heard
    ensures ValidProof(sys.Config(i), p, k)
    ensures k in net[i].state.echos ==> net[i].state.echos[k] == p
  {
    EchoIsValid(sys, net, i, k, p);
    hide OwnEcho, OwnReady, OwnSent, OwnOutput, Live, Authentic, ReadysHaveOrigin, ValidProof;
    assert NodeInv(sys.Config(i), net[i].history, net[i].state);
    if k in net[i].state.echos {
      var q := net[i].state.echos[k];
      assert (k, Echo(q)) in net[i].history.heard;
      SentIsHeard(sys, net, i, k, Echo(q));
      OneEcho(sys, net, k, p, q);
    }
  }

  /** The proof that a correct proposer sends is valid, and it is the one we have echoed if
      we have echoed any. */
  lemma CorrectValue(sys: System, net: Network, i: nat, p: Proof)
    requires NetworkInv(sys, net) && i in net && sys.proposerId in net
    requires OwnProof(sys.Config(sys.proposerId), net[sys.proposerId].history, i, p)
    ensures ValidProof(sys.Config(i), p, i)
    ensures net[i].state.echoSent ==> i in net[i].state.echos && net[i].state.echos[i] == p
  {
    var h := net[sys.proposerId].history;
    BelowCount(sys, h, i, p);
    ProposedIsValid(sys, h, i, p);
    if net[i].state.echoSent {
      var q := OwnEchoCounted(sys, net, i);
      EchoIsProposed(sys, net, i, q);
      SameProof(sys, h, i, p, q);
    }
  }

  lemma BelowCount(sys: System, h: History, i: nat, p: Proof)
    requires sys.Valid() && OwnProof(sys.Config(sys.proposerId), h, i, p)
    ensures i < sys.n
  {
    hide Lawful, Shards, CollisionFree;
    ShardCount(sys, h.input.value);
  }

  lemma SameProof(sys: System, h: History, i: nat, p: Proof, q: Proof)
    requires sys.n > 0
    requires OwnProof(sys.Config(sys.proposerId), h, i, p) && OwnProof(sys.Config(sys.proposerId), h, i, q)
    ensures p == q
  {
    hide Shards, ProofOf;
  }

  /** A validator that has sent its `Echo` has counted it. */
  lemma OwnEchoCounted(sys: System, net: Network, i: nat) returns (q: Proof)
    requires NetworkInv(sys, net) && i in net && i < sys.n && net[i].state.echoSent
    ensures (i, Echo(q)) in net[i].history.heard && i in net[i].state.echos && net[i].state.echos[i] == q
  {
    hide OwnEcho, OwnReady, OwnSent, OwnOutput, StateLive, Shared, Authentic, ReadysHaveOrigin, WellFormed, ValidProof;
    assert Live(sys.Config(i), net[i].history, net[i].state);
    q :| (All, Echo(q)) in net[i].history.sent;
    SentToSelf(sys, net, i, Echo(q));
    EchoIsValid(sys, net, i, i, q);
    assert i in net[i].state.echos;
    CorrectEcho(sys, net, i, i, q);
  }

  /** With a correct proposer, shards can always be decoded. */
  lemma AlwaysDecodable(sys: System, net: Network, i: nat, root: Digest)
    requires NetworkInv(sys, net) && i in net && sys.proposerId in net
    ensures !Undecodable(sys.Config(i), net[i].state, root)
  {
    hide NodesOk, Authentic, ReadysHaveOrigin, Lawful, IsCodeword, CollisionFree, LeafValues, Root, Leaves, Payload;
    hide Shards, ReadysOf, EchosOf;
    var cfg, s := sys.Config(i), net[i].state;
    if IsRipe(cfg, s, root) {
      ConfigsOk(sys, i);
      var k := RipeReady(sys, net, i, root);
      ReadyIsProposed(sys, net, k, root);
      var input := net[sys.proposerId].history.input.value;
      ShardCount(sys, input);
      InputIsCodeword(sys, input);
      var leaves := Shards(sys.coding, input);
      EchosAgree(sys, net, root, leaves, i);
      PresentEchos(cfg, s, root);
      LawfulDecodes(sys.coding, sys.hash, leaves, LeafValues(cfg, s, root), root);
      PayloadOfShards(sys.coding, input);
    }
  }

  /** Behind `2 f + 1` readys that were counted there is a correct validator. */
  lemma RipeReady(sys: System, net: Network, i: nat, root: Digest) returns (k: nat)
    requires NetworkInv(sys, net) && i in net && |ReadysOf(net[i].state, root)| > 2 * MaxFaulty(sys.n)
    ensures k in net && (k, Ready(root)) in net[k].history.heard
  {
    hide OwnEcho, OwnReady, OwnSent, OwnOutput, Live, Authentic, ReadysHaveOrigin, IsConfig, CollisionFree, ValidProof;
    assert NodeInv(sys.Config(i), net[i].history, net[i].state);
    var voters := ReadysOf(net[i].state, root);
    assert voters <= Validators(sys.n);
    k := CorrectVoter(sys, net, voters);
    assert (k, Ready(net[i].state.readys[k])) in net[i].history.heard;
    SentIsHeard(sys, net, i, k, Ready(root));
  }

  /** In every run: whatever message is delivered next, the fault log of the correct node that
      handles it accuses no correct node. */
  lemma NoFalseAccusation(sys: System, actions: seq<Action>, net: Network, a: Action, f: Fault)
    requires sys.Valid() && Reaches(sys, actions, net) && a.Deliver? && Enabled(net, a)
    requires var r := HandleMessage(sys.Config(a.to), net[a.to].state, a.from, a.msg);
             r.Done? && f in r.step.faults
    ensures f.id !in net
  {
    hide Reaches, NetworkInv, OnlyDeserved, Undecodable, Accuses, HandleMessage, HasSent, Apply;
    RunInv(sys, actions, net);
    StepInv(sys, net, a);
    var cfg, s := sys.Config(a.to), net[a.to].state;
    ReadyForFaults(sys, net, a.to);
    FaultsAreDeserved(cfg, s, a.from, a.msg);
    FaultIsDeserved(sys, net, a, f);
  }

  lemma ReadyForFaults(sys: System, net: Network, i: nat)
    requires NetworkInv(sys, net) && i in net
    ensures Prompt(sys.Config(i), net[i].state)
    ensures !net[i].state.echoSent ==> i !in net[i].state.echos
  {
    hide OwnReady, OwnSent, OwnOutput, EchoJustified, Handled, Announced, Shared, Authentic, ReadysHaveOrigin;
    hide ValidProof, Amplified, Quiet;
    assert NodeInv(sys.Config(i), net[i].history, net[i].state);
    assert Live(sys.Config(i), net[i].history, net[i].state);
    if i in net[i].state.echos {
      assert (i, Echo(net[i].state.echos[i])) in net[i].history.heard;
    }
  }

  lemma FaultIsDeserved(sys: System, net: Network, a: Action, f: Fault)
    requires NetworkInv(sys, net) && a.Deliver? && Enabled(net, a) && NetworkInv(sys, Apply(sys, net, a))
    requires var r := HandleMessage(sys.Config(a.to), net[a.to].state, a.from, a.msg);
             && r.Done? && f in r.step.faults
             && OnlyDeserved(sys.Config(a.to), net[a.to].state, a.from, a.msg, Outcome(r.state, r.step))
    ensures f.id !in net
  {
    hide NodesOk, Authentic, ReadysHaveOrigin, WellFormed, Undecodable, Accuses, HasSent;
    var net' := Apply(sys, net, a);
    var cfg := sys.Config(a.to);
    if f.id in net {
      if f.id == a.from && Accuses(cfg, net[a.to].state, a.from, a.msg, f.kind) {
        CorrectNotAccused(sys, net, a.to, a.from, a.msg, f.kind);
      } else {
        var root :| Undecodable(cfg, net'[a.to].state, root);
        AlwaysDecodable(sys, net', a.to, root);
      }
    }
  }
}
