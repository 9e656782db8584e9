/** Agreement, validity and totality, for every run of Reliable Broadcast. */
module BroadcastSafety {
  import opened Options
  import opened Quorums
  import opened Merkle
  import opened ErasureCoding
  import opened ShardSubsets
  import opened BroadcastSpec
  import opened BroadcastNode
  import opened BroadcastProgress
  import opened BroadcastNetwork

  // ----- Agreement -----

  lemma OneEcho(sys: System, net: Network, k: nat, p: Proof, q: Proof)
    requires NetworkInv(sys, net) && k in net
    requires (k, Echo(p)) in net[k].history.heard && (k, Echo(q)) in net[k].history.heard
    ensures p == q
  {
    hide Received, OwnReady, OwnSent, OwnOutput, EchoJustified, Live, Authentic, ReadysHaveOrigin, IsConfig;
    hide CollisionFree;
    assert NodeInv(sys.Config(k), net[k].history, net[k].state);
  }

  /** An echo that a correct node counted is the one its correct sender has sent. */
  lemma EchoOf(sys: System, net: Network, i: nat, k: nat, root: Digest) returns (p: Proof)
    requires NetworkInv(sys, net) && i in net && k in net
    requires k in EchoVoters(sys.Config(i), net[i].history, root)
    ensures p.rootHash == root && (k, Echo(p)) in net[k].history.heard
  {
    hide NodesOk, Authentic, ReadysHaveOrigin, WellFormed;
    assert EchoVote(net[i].history, root, k);
    p :| (k, Echo(p)) in net[i].history.heard && p.rootHash == root;
    SentIsHeard(sys, net, i, k, Echo(p));
  }

  lemma EchoedAgree(sys: System, net: Network, i: nat, j: nat, d: Digest, e: Digest)
    requires NetworkInv(sys, net) && i in net && j in net
    requires Echoed(sys.Config(i), net[i].history, d) && Echoed(sys.Config(j), net[j].history, e)
    ensures d == e
  {
    hide NodesOk, Authentic, ReadysHaveOrigin, IsConfig, EchoVoters, CollisionFree;
    VotersAreValidators(sys, i, net[i].history, d);
    VotersAreValidators(sys, j, net[j].history, e);
    var k := QuorumsIntersect(sys.n, EchoVoters(sys.Config(i), net[i].history, d),
                              EchoVoters(sys.Config(j), net[j].history, e), sys.faulty);
    assert k in Validators(sys.n);
    var p := EchoOf(sys, net, i, k, d);
    var q := EchoOf(sys, net, j, k, e);
    OneEcho(sys, net, k, p, q);
  }

  lemma OriginOf(sys: System, net: Network, i: nat, d: Digest) returns (k: nat)
    requires NetworkInv(sys, net) && i in net && (i, Ready(d)) in net[i].history.heard
    ensures k in net && Echoed(sys.Config(k), net[k].history, d)
  {
    hide NodesOk, Authentic, WellFormed, Echoed;
    assert SomeEchoed(sys, net, d);
    k :| k in net && Echoed(sys.Config(k), net[k].history, d);
  }

  /** All `Ready`s that correct nodes send carry the same root hash. */
  lemma ReadysAgree(sys: System, actions: seq<Action>, net: Network, i: nat, j: nat, d: Digest, e: Digest)
    requires sys.Valid() && Reaches(sys, actions, net) && i in net && j in net
    requires (All, Ready(d)) in net[i].history.sent && (All, Ready(e)) in net[j].history.sent
    ensures d == e
  {
    hide Reaches, NetworkInv;
    RunInv(sys, actions, net);
    SentToSelf(sys, net, i, Ready(d));
    SentToSelf(sys, net, j, Ready(e));
    ReadyRootsAgree(sys, net, i, j, d, e);
  }

  lemma ReadyRootsAgree(sys: System, net: Network, i: nat, j: nat, d: Digest, e: Digest)
    requires NetworkInv(sys, net) && i in net && j in net
    requires (i, Ready(d)) in net[i].history.heard && (j, Ready(e)) in net[j].history.heard
    ensures d == e
  {
    hide NetworkInv;
    var k := OriginOf(sys, net, i, d);
    var l := OriginOf(sys, net, j, e);
    EchoedAgree(sys, net, k, l, d, e);
  }

  lemma SentToSelf(sys: System, net: Network, i: nat, m: Message)
    requires NetworkInv(sys, net) && i in net && (All, m) in net[i].history.sent
    ensures (i, m) in net[i].history.heard
  {
    hide Received, OwnEcho, OwnReady, OwnOutput, OwnProof, Live, Authentic, ReadysHaveOrigin, WellFormed;
    assert NodeInv(sys.Config(i), net[i].history, net[i].state);
  }

  /** A correct validator that sent a `Ready` for the root this output comes from. */
  lemma ReadyBehindOutput(sys: System, net: Network, i: nat, root: Digest, leaves: seq<Bytes>, value: Bytes)
    returns (k: nat)
    requires NetworkInv(sys, net) && i in net
    requires OutputFrom(sys.Config(i), net[i].history, root, leaves, value)
    ensures k in net && k < sys.n && (k, Ready(root)) in net[k].history.heard
  {
    hide NodesOk, Authentic, ReadysHaveOrigin, IsConfig, IsValueOf, CollisionFree;
    VotersAreValidators(sys, i, net[i].history, root);
    k := CorrectVoter(sys, net, ReadyVoters(sys.Config(i), net[i].history, root));
    SentIsHeard(sys, net, i, k, Ready(root));
  }

  lemma CertOf(sys: System, net: Network, i: nat, value: Bytes) returns (root: Digest, leaves: seq<Bytes>)
    requires NetworkInv(sys, net) && i in net && value in net[i].history.outputs
    ensures OutputFrom(sys.Config(i), net[i].history, root, leaves, value)
  {
    hide Received, OwnEcho, OwnReady, OwnSent, Live, OutputFrom, Authentic, ReadysHaveOrigin;
    assert NodeInv(sys.Config(i), net[i].history, net[i].state);
    assert OutputCert(sys.Config(i), net[i].history, value);
    root, leaves :| OutputFrom(sys.Config(i), net[i].history, root, leaves, value);
  }

  /** The leaves under a root are unique. */
  lemma SameLeaves(sys: System, i: nat, j: nat, root: Digest, a: seq<Bytes>, b: seq<Bytes>, v: Bytes, w: Bytes)
    requires sys.Valid()
    requires IsValueOf(sys.Config(i), root, a, v) && IsValueOf(sys.Config(j), root, b, w)
    ensures a == b && v == w
  {
    hide IsConfig, CollisionFree, Payload, Root, Leaves;
    RootsDetermineValues(sys.hash, a, b);
  }

  /** In every run: no two correct nodes output different payloads, even if the proposer is
      faulty and they decoded different sets of shards. */
  lemma Agreement(sys: System, actions: seq<Action>, net: Network, i: nat, j: nat, v: Bytes, w: Bytes)
    requires sys.Valid() && Reaches(sys, actions, net) && i in net && j in net
    requires v in net[i].history.outputs && w in net[j].history.outputs
    ensures v == w
  {
    hide Reaches, NetworkInv, ReadyVoters, IsValueOf;
    RunInv(sys, actions, net);
    var d, a := CertOf(sys, net, i, v);
    var e, b := CertOf(sys, net, j, w);
    var k := ReadyBehindOutput(sys, net, i, d, a, v);
    var l := ReadyBehindOutput(sys, net, j, e, b, w);
    ReadyRootsAgree(sys, net, k, l, d, e);
    SameLeaves(sys, i, j, d, a, b, v, w);
  }

  /** No correct node outputs twice. */
  lemma OneOutput(sys: System, actions: seq<Action>, net: Network, i: nat)
    requires sys.Valid() && Reaches(sys, actions, net) && i in net
    ensures |net[i].history.outputs| <= 1
    ensures net[i].state.decided <==> |net[i].history.outputs| == 1
  {
    hide Reaches, Received, OwnEcho, OwnReady, OwnSent, Live, OutputCert, Authentic, ReadysHaveOrigin, WellFormed;
    RunInv(sys, actions, net);
    assert NodeInv(sys.Config(i), net[i].history, net[i].state);
  }

  // ----- Validity -----

  /** If the proposer is correct, what correct nodes echo is the proof for them, for its input. */
  lemma EchoIsProposed(sys: System, net: Network, k: nat, p: Proof)
    requires NetworkInv(sys, net) && sys.proposerId in net && k in net
    requires (k, Echo(p)) in net[k].history.heard
    ensures OwnProof(sys.Config(sys.proposerId), net[sys.proposerId].history, k, p)
  {
    hide Received, OwnReady, OwnOutput, Live, ReadysHaveOrigin, IsConfig, CollisionFree, ValidProof, OwnProof;
    var cfg := sys.Config(k);
    assert NodeInv(cfg, net[k].history, net[k].state);
    assert EchoJustified(cfg, net[k].history, p);
    if (cfg.proposerId, Value(p)) in net[k].history.heard {
      ValueIsProposed(sys, net, k, p);
    } else {
      OwnMeansProposer(cfg, net[k].history, k, p);
    }
  }

  lemma OwnMeansProposer(cfg: Config, h: History, id: nat, p: Proof)
    requires OwnProof(cfg, h, id, p)
    ensures cfg.net.ourId == cfg.proposerId
  {
  }

  lemma ValueIsProposed(sys: System, net: Network, k: nat, p: Proof)
    requires NetworkInv(sys, net) && sys.proposerId in net && k in net
    requires (sys.proposerId, Value(p)) in net[k].history.heard
    ensures OwnProof(sys.Config(sys.proposerId), net[sys.proposerId].history, k, p)
  {
    hide Received, OwnReady, OwnEcho, OwnOutput, Live, ReadysHaveOrigin, IsConfig, CollisionFree, OwnProof;
    assert HasSent(net[sys.proposerId].history, k, Value(p));
    assert NodeInv(sys.Config(sys.proposerId), net[sys.proposerId].history, net[sys.proposerId].state);
  }

  ghost function RootOf(sys: System, input: Bytes): Digest
    requires sys.coding.dataShards > 0 && |Shards(sys.coding, input)| > 0
  {
    Root(sys.hash, Leaves(sys.hash, Shards(sys.coding, input)))
  }

  lemma ShardCount(sys: System, input: Bytes)
    requires sys.Valid()
    ensures sys.coding.dataShards > 0 && |Shards(sys.coding, input)| == sys.n >= sys.coding.dataShards
  {
    hide Lawful, Shards;
    assert IsConfig(sys.Config(0)) && Lawful(sys.coding);
    ShardsAreCodeword(sys.coding, input);
    PositiveShards(sys.Config(0));
  }

  /** `Ready`s, too, are for the input of the correct proposer. */
  lemma ReadyIsProposed(sys: System, net: Network, k: nat, root: Digest)
    requires NetworkInv(sys, net) && sys.proposerId in net && k in net
    requires (k, Ready(root)) in net[k].history.heard
    ensures net[sys.proposerId].history.input.Some? && sys.coding.dataShards > 0
    ensures |Shards(sys.coding, net[sys.proposerId].history.input.value)| == sys.n
    ensures root == RootOf(sys, net[sys.proposerId].history.input.value)
  {
    hide NodesOk, Authentic, ReadysHaveOrigin, IsConfig, EchoVoters, CollisionFree, Shards;
    var l := OriginOf(sys, net, k, root);
    VotersAreValidators(sys, l, net[l].history, root);
    EchoQuorum(sys);
    var c := CorrectVoter(sys, net, EchoVoters(sys.Config(l), net[l].history, root));
    var p := EchoOf(sys, net, l, c, root);
    EchoIsProposed(sys, net, c, p);
    ShardCount(sys, net[sys.proposerId].history.input.value);
  }

  lemma EchoQuorum(sys: System)
    requires sys.n > 0
    ensures sys.n - MaxFaulty(sys.n) > MaxFaulty(sys.n)
  {
  }

  /** In every run with a correct proposer: if a correct node outputs anything, it is the
      proposer's input, up to the 32 bits in which its size is sent. */
  lemma Validity(sys: System, actions: seq<Action>, net: Network, i: nat, v: Bytes)
    requires sys.Valid() && Reaches(sys, actions, net) && i in net && sys.proposerId in net
    requires v in net[i].history.outputs
    ensures net[sys.proposerId].history.input.Some?
    ensures var input := net[sys.proposerId].history.input.value;
            && v == Truncated(input)
            && (v == input <==> |input| < TWO32)
  {
    hide Reaches, NetworkInv, ReadyVoters, Shards, Payload, IsConfig, CollisionFree;
    RunInv(sys, actions, net);
    var root, leaves := CertOf(sys, net, i, v);
    var k := ReadyBehindOutput(sys, net, i, root, leaves, v);
    ReadyIsProposed(sys, net, k, root);
    var input := net[sys.proposerId].history.input.value;
    ShardCount(sys, input);
    PayloadOfShards(sys.coding, input);
    PayloadRoundTrip(sys.coding, input);
    SameLeaves(sys, i, i, root, leaves, Shards(sys.coding, input), v, Truncated(input));
  }

  // ----- Totality -----

  /** Every message between correct validators, and from them to observers, has been handled. */
  ghost predicate Quiescent(sys: System, net: Network) {
    forall i, j, m :: i in net && j in net && i != j && j < sys.n && HasSent(net[j].history, i, m) ==>
                        (j, m) in net[i].history.heard
  }

  /** The correct validators. */
  function Correct(sys: System): set<nat> {
    set i | i in Validators(sys.n) && i in sys.correct
  }

  lemma EnoughCorrect(sys: System)
    requires sys.Valid()
    ensures |Correct(sys)| >= sys.n - MaxFaulty(sys.n)
  {
    ValidatorsSize(sys.n);
    assert Validators(sys.n) <= Correct(sys) + sys.faulty;
    SubsetSize(Validators(sys.n), Correct(sys) + sys.faulty);
  }

  /** At the end, a multicast of a correct validator has reached every correct node. */
  lemma Reached(sys: System, net: Network, i: nat, k: nat, m: Message)
    requires NetworkInv(sys, net) && Quiescent(sys, net) && i in net && k in net && k < sys.n
    requires (k, m) in net[k].history.heard && !m.Value?
    ensures (k, m) in net[i].history.heard
  {
    hide NodesOk, ReadysHaveOrigin, WellFormed;
    assert HasSent(net[k].history, k, m);
    NoNodeMessages(sys, net, k, m);
    assert HasSent(net[k].history, i, m);
  }

  lemma NoNodeMessages(sys: System, net: Network, k: nat, m: Message)
    requires NetworkInv(sys, net) && k in net && !m.Value?
    ensures forall id :: (Node(id), m) !in net[k].history.sent
  {
    hide Received, OwnEcho, OwnReady, OwnOutput, OwnProof, Live, Authentic, ReadysHaveOrigin, WellFormed;
    assert NodeInv(sys.Config(k), net[k].history, net[k].state);
  }

  lemma ReadyCounted(sys: System, net: Network, i: nat, k: nat, root: Digest)
    requires NetworkInv(sys, net) && Quiescent(sys, net) && i in net && k in net && k < sys.n
    requires (k, Ready(root)) in net[k].history.heard
    ensures k in ReadysOf(net[i].state, root)
  {
    hide OwnEcho, OwnReady, OwnOutput, OwnSent, StateLive, Announced, Shared, ReadysHaveOrigin, WellFormed, Authentic;
    hide Quiescent;
    Reached(sys, net, i, k, Ready(root));
    var s := net[i].state;
    assert NodeInv(sys.Config(i), net[i].history, s) && Live(sys.Config(i), net[i].history, s);
    assert (k, Ready(s.readys[k])) in net[i].history.heard;
    SentIsHeard(sys, net, i, k, Ready(s.readys[k]));
    ReadyRootsAgree(sys, net, k, k, s.readys[k], root);
  }

  lemma EchoCounted(sys: System, net: Network, i: nat, k: nat, p: Proof)
    requires NetworkInv(sys, net) && Quiescent(sys, net) && i in net && k in net && k < sys.n
    requires (k, Echo(p)) in net[k].history.heard
    ensures k in net[i].state.echos && net[i].state.echos[k] == p
  {
    hide OwnReady, OwnOutput, OwnSent, OwnProof, StateLive, Announced, Shared, ReadysHaveOrigin, WellFormed, Authentic;
    hide Quiescent, IsValid;
    Reached(sys, net, i, k, Echo(p));
    var s := net[i].state;
    assert NodeInv(sys.Config(k), net[k].history, net[k].state);
    assert EchoJustified(sys.Config(k), net[k].history, p);
    assert ValidProof(sys.Config(i), p, k);
    assert NodeInv(sys.Config(i), net[i].history, s) && Live(sys.Config(i), net[i].history, s);
    assert (k, Echo(s.echos[k])) in net[i].history.heard;
    SentIsHeard(sys, net, i, k, Echo(s.echos[k]));
    OneEcho(sys, net, k, s.echos[k], p);
  }

  /** A correct validator that has enough reason to send a `Ready` has sent it. */
  lemma ReadySent(sys: System, net: Network, k: nat) returns (d: Digest)
    requires NetworkInv(sys, net) && k in net && k < sys.n && net[k].state.readySent
    ensures (k, Ready(d)) in net[k].history.heard
  {
    hide NodeInv, StateLive, Handled, Shared, Authentic, ReadysHaveOrigin, WellFormed;
    assert Live(sys.Config(k), net[k].history, net[k].state);
    d :| (All, Ready(d)) in net[k].history.sent;
    SentToSelf(sys, net, k, Ready(d));
  }

  lemma IsAmplified(sys: System, net: Network, i: nat, root: Digest)
    requires NetworkInv(sys, net) && i in net
    ensures Amplified(sys.Config(i), net[i].state, root) && Quiet(sys.Config(i), net[i].state, root)
  {
    hide NodeInv, Handled, Announced, Shared, Authentic, ReadysHaveOrigin, Amplified, Quiet;
    assert Live(sys.Config(i), net[i].history, net[i].state);
  }

  /** At the end, if more than `f` correct validators have sent a `Ready` for this root,
      every correct node has `N - f` of them. */
  lemma EveryoneReady(sys: System, net: Network, root: Digest, some: set<nat>, i: nat)
    requires NetworkInv(sys, net) && Quiescent(sys, net) && i in net
    requires |some| > MaxFaulty(sys.n)
    requires forall k :: k in some ==> k in net && k < sys.n && (k, Ready(root)) in net[k].history.heard
    ensures |ReadysOf(net[i].state, root)| >= sys.n - MaxFaulty(sys.n)
  {
    forall k | k in Correct(sys) ensures k in ReadysOf(net[i].state, root) {
      CorrectIsReady(sys, net, root, some, k);
      ReadyCounted(sys, net, i, k, root);
    }
    EnoughCorrect(sys);
    SubsetSize(Correct(sys), ReadysOf(net[i].state, root));
  }

  lemma CorrectIsReady(sys: System, net: Network, root: Digest, some: set<nat>, k: nat)
    requires NetworkInv(sys, net) && Quiescent(sys, net) && k in Correct(sys)
    requires |some| > MaxFaulty(sys.n)
    requires forall l :: l in some ==> l in net && l < sys.n && (l, Ready(root)) in net[l].history.heard
    ensures k in net && k < sys.n && (k, Ready(root)) in net[k].history.heard
  {
    hide NodesOk, Authentic, ReadysHaveOrigin, Quiescent, Amplified, ReadysOf;
    forall l | l in some ensures l in ReadysOf(net[k].state, root) {
      ReadyCounted(sys, net, k, l, root);
    }
    SubsetSize(some, ReadysOf(net[k].state, root));
    IsAmplified(sys, net, k, root);
    AmplifiedReady(sys, k, net[k].state, root);
    var d := ReadySent(sys, net, k);
    var l :| l in some;
    ReadyRootsAgree(sys, net, k, l, d, root);
  }

  lemma AmplifiedReady(sys: System, k: nat, s: State, root: Digest)
    requires sys.n > 0 && Amplified(sys.Config(k), s, root)
    requires |ReadysOf(s, root)| > MaxFaulty(sys.n) || |EchosOf(s, root)| >= sys.n - MaxFaulty(sys.n)
    ensures s.readySent
  {
  }

  /** At the end, if `N - f` echos for this root were seen by a correct node, every correct
      node has at least `N - 2 f` of them. */
  lemma EveryoneEchoed(sys: System, net: Network, root: Digest, k: nat, i: nat)
    requires NetworkInv(sys, net) && Quiescent(sys, net) && i in net && k in net
    requires Echoed(sys.Config(k), net[k].history, root)
    ensures |EchosOf(net[i].state, root)| >= sys.n - 2 * MaxFaulty(sys.n)
  {
    hide NodesOk, Authentic, ReadysHaveOrigin, Quiescent, IsConfig, CollisionFree, EchoVoters;
    VotersAreValidators(sys, k, net[k].history, root);
    var voters := EchoVoters(sys.Config(k), net[k].history, root);
    var correct := voters - sys.faulty;
    assert voters <= correct + sys.faulty;
    SubsetSize(voters, correct + sys.faulty);
    forall c | c in correct ensures c in EchosOf(net[i].state, root) {
      assert c in Validators(sys.n);
      var p := EchoOf(sys, net, k, c, root);
      EchoCounted(sys, net, i, c, p);
    }
    SubsetSize(correct, EchosOf(net[i].state, root));
  }

  /** With enough messages for a root, a correct node has decided, if its leaves decode, and
      decode alike for all nodes. */
  lemma RipeDecides(sys: System, net: Network, root: Digest, leaves: seq<Bytes>, i: nat)
    requires NetworkInv(sys, net) && i in net
    requires |leaves| == sys.n && DecodeAlike(sys.coding, sys.hash, leaves)
    requires Root(sys.hash, Leaves(sys.hash, leaves)) == root
    requires DecodeFrom(sys.coding, sys.hash, leaves, Validators(sys.n)).Some?
    requires |ReadysOf(net[i].state, root)| > 2 * MaxFaulty(sys.n)
    requires |EchosOf(net[i].state, root)| >= sys.n - 2 * MaxFaulty(sys.n)
    ensures net[i].state.decided
  {
    hide NodesOk, Authentic, ReadysHaveOrigin, Root, Leaves, Payload, Lawful, ReadysOf, EchosOf, LeafValues;
    hide CollisionFree, DecodeFrom;
    var cfg, s := sys.Config(i), net[i].state;
    ConfigsOk(sys, i);
    EchosAgree(sys, net, root, leaves, i);
    PresentEchos(cfg, s, root);
    IsAmplified(sys, net, i, root);
    var shards := LeafValues(cfg, s, root);
    AgreeingAreThose(shards, leaves);
    EchosAreEnough(sys, net, leaves, i, root);
    assert DecodeFrom(sys.coding, sys.hash, leaves, Present(shards))
        == DecodeFrom(sys.coding, sys.hash, leaves, Validators(sys.n));
    DecodedIsThose(cfg, s, root, leaves, Present(shards));
  }

  lemma DecodedIsThose(cfg: Config, s: State, root: Digest, leaves: seq<Bytes>, ids: set<nat>)
    requires |leaves| > 0 && Root(cfg.hash, Leaves(cfg.hash, leaves)) == root
    requires LeafValues(cfg, s, root) == Those(leaves, ids)
    ensures Decoded(cfg, s, root) == DecodeFrom(cfg.coding, cfg.hash, leaves, ids)
  {
    hide Root, Leaves, DecodeFromShards, LeafValues, Those;
  }

  lemma AgreeingAreThose(shards: seq<Option<Bytes>>, leaves: seq<Bytes>)
    requires Agrees(shards, leaves)
    ensures shards == Those(leaves, Present(shards))
  {
  }

  /** The echos for a root, and all of them together, are enough to decode. */
  lemma EchosAreEnough(sys: System, net: Network, leaves: seq<Bytes>, i: nat, root: Digest)
    requires NetworkInv(sys, net) && i in net && |leaves| == sys.n
    requires forall id :: id in net[i].state.echos ==> id < sys.n
    requires |EchosOf(net[i].state, root)| >= sys.n - 2 * MaxFaulty(sys.n)
    ensures AreEnough(sys.coding, leaves, EchosOf(net[i].state, root))
    ensures AreEnough(sys.coding, leaves, Validators(sys.n))
  {
    hide NodesOk, Authentic, ReadysHaveOrigin, Lawful, CollisionFree;
    ConfigsOk(sys, i);
    ValidatorsSize(sys.n);
    forall id | id in EchosOf(net[i].state, root) ensures id in Validators(sys.n) {
      assert IsBelow(id, sys.n);
    }
  }

  lemma LawfulDecodes(c: Coding, h: Hash, leaves: seq<Bytes>, shards: seq<Option<Bytes>>, root: Digest)
    requires Lawful(c) && IsCodeword(c, leaves) && |leaves| >= c.dataShards
    requires Agrees(shards, leaves) && |Present(shards)| >= c.dataShards
    requires 0 < |leaves| && Root(h, Leaves(h, leaves)) == root
    ensures DecodeFromShards(c, h, shards, root) == Payload(c, leaves)
  {
    hide Root, Leaves, Payload, IsCodeword;
  }

  lemma PresentEchos(cfg: Config, s: State, root: Digest)
    requires forall id :: id in s.echos ==> id < cfg.net.n
    ensures Present(LeafValues(cfg, s, root)) == EchosOf(s, root)
  {
  }

  lemma EchosAgree(sys: System, net: Network, root: Digest, leaves: seq<Bytes>, i: nat)
    requires NetworkInv(sys, net) && i in net
    requires |leaves| == sys.n && Root(sys.hash, Leaves(sys.hash, leaves)) == root
    ensures Agrees(LeafValues(sys.Config(i), net[i].state, root), leaves)
    ensures forall id :: id in net[i].state.echos ==> id < sys.n
  {
    hide OwnEcho, OwnReady, OwnOutput, OwnSent, Live, Authentic, ReadysHaveOrigin, Root, Leaves, IsConfig, IsValid;
    hide ProofOf, CollisionFree;
    var s := net[i].state;
    assert NodeInv(sys.Config(i), net[i].history, s);
    forall id | id in s.echos && s.echos[id].rootHash == root
      ensures id < sys.n && s.echos[id].value == leaves[id]
    {
      LeafBound(sys, s.echos[id], leaves);
    }
  }

  lemma LeafBound(sys: System, p: Proof, leaves: seq<Bytes>)
    requires CollisionFree(sys.hash) && p.index < |leaves|
    requires IsValid(sys.hash, p, |leaves|) && Root(sys.hash, Leaves(sys.hash, leaves)) == p.rootHash
    ensures p.value == leaves[p.index]
  {
    ProofsBind(sys.hash, leaves, p);
  }

  /** At the end of every run: if one correct node has output what some leaves stand for, and
      these decode alike for all nodes, then all correct nodes have output it. */
  lemma Totality(
    sys: System, actions: seq<Action>, net: Network, i: nat, j: nat, root: Digest, leaves: seq<Bytes>, v: Bytes)
    requires sys.Valid() && Reaches(sys, actions, net) && i in net && j in net
    requires Quiescent(sys, net)
    requires v in net[i].history.outputs && OutputFrom(sys.Config(i), net[i].history, root, leaves, v)
    requires DecodeAlike(sys.coding, sys.hash, leaves)
    ensures net[j].history.outputs == [v]
  {
    hide Reaches, NetworkInv, Quiescent, DecodeAlike, DecodeFrom, Payload, Root, Leaves;
    RunInv(sys, actions, net);
    var k := ReadyBehindOutput(sys, net, i, root, leaves, v);
    var voters := CorrectReadys(sys, net, i, root, leaves, v);
    EveryoneReady(sys, net, root, voters, j);
    var l := OriginOf(sys, net, k, root);
    EveryoneEchoed(sys, net, root, l, j);
    MoreThanTwoThirds(sys.n);
    WholeDecodes(sys.coding, sys.hash, leaves);
    RipeDecides(sys, net, root, leaves, j);
    OneOutput(sys, actions, net, j);
    Agreement(sys, actions, net, i, j, v, net[j].history.outputs[0]);
  }

  /** Every output stands for some leaves. */
  lemma OutputHasLeaves(sys: System, actions: seq<Action>, net: Network, i: nat, v: Bytes)
    returns (root: Digest, leaves: seq<Bytes>)
    requires sys.Valid() && Reaches(sys, actions, net) && i in net && v in net[i].history.outputs
    ensures OutputFrom(sys.Config(i), net[i].history, root, leaves, v)
  {
    hide Reaches, NetworkInv, OutputFrom;
    RunInv(sys, actions, net);
    root, leaves := CertOf(sys, net, i, v);
  }

  /** With at most three validators there is no parity, and so no condition. Otherwise it is
      that the leaves form a codeword. */
  lemma TotalityCondition(sys: System, h: History, i: nat, root: Digest, leaves: seq<Bytes>, v: Bytes)
    requires sys.Valid() && OutputFrom(sys.Config(i), h, root, leaves, v)
    ensures DecodeAlike(sys.coding, sys.hash, leaves) <==> sys.coding.Trivial? || IsCodeword(sys.coding, leaves)
  {
    hide Lawful, CollisionFree, IsCodeword, Payload, Root, Leaves, DecodeFrom, DecodeAlike;
    assert IsConfig(sys.Config(i));
    WholeDecodes(sys.coding, sys.hash, leaves);
    DecodeAlikeIff(sys.coding, sys.hash, leaves);
  }

  lemma MoreThanTwoThirds(n: nat)
    requires n > 0
    ensures n - MaxFaulty(n) > 2 * MaxFaulty(n)
  {
  }

  /** More than `f` correct validators sent the `Ready` this output rests on. */
  lemma CorrectReadys(sys: System, net: Network, i: nat, root: Digest, leaves: seq<Bytes>, v: Bytes)
    returns (some: set<nat>)
    requires NetworkInv(sys, net) && i in net
    requires OutputFrom(sys.Config(i), net[i].history, root, leaves, v)
    ensures |some| > MaxFaulty(sys.n)
    ensures forall k :: k in some ==> k in net && k < sys.n && (k, Ready(root)) in net[k].history.heard
  {
    hide NodesOk, Authentic, ReadysHaveOrigin, IsConfig, CollisionFree, IsValueOf;
    var voters := ReadyVoters(sys.Config(i), net[i].history, root);
    some := voters - sys.faulty;
    SubsetSize(voters, some + sys.faulty);
    VotersAreValidators(sys, i, net[i].history, root);
    forall k | k in some ensures k in net && k < sys.n && (k, Ready(root)) in net[k].history.heard {
      assert k in Validators(sys.n);
      SentIsHeard(sys, net, i, k, Ready(root));
    }
  }

  // ----- Termination with a correct proposer -----

  /** A correct validator has echoed the input of a correct proposer, at the end. */
  lemma InputEchoed(sys: System, net: Network, k: nat) returns (p: Proof)
    requires NetworkInv(sys, net) && Quiescent(sys, net) && k in net && k < sys.n
    requires sys.proposerId in net && sys.proposerId < sys.n && net[sys.proposerId].history.input.Some?
    ensures (k, Echo(p)) in net[k].history.heard
    ensures OwnProof(sys.Config(sys.proposerId), net[sys.proposerId].history, k, p)
  {
    hide Received, OwnEcho, OwnReady, OwnOutput, OwnSent, OwnProof, StateLive, Authentic, ReadysHaveOrigin, WellFormed;
    hide ValidProof;
    assert Live(sys.Config(k), net[k].history, net[k].state);
    if k != sys.proposerId {
      ValueArrived(sys, net, k);
    }
    assert net[k].state.echoSent;
    p :| (All, Echo(p)) in net[k].history.sent;
    SentToSelf(sys, net, k, Echo(p));
    EchoIsProposed(sys, net, k, p);
  }

  lemma ValueArrived(sys: System, net: Network, k: nat)
    requires NetworkInv(sys, net) && Quiescent(sys, net) && k in net && k < sys.n && k != sys.proposerId
    requires sys.proposerId in net && sys.proposerId < sys.n && net[sys.proposerId].history.input.Some?
    ensures net[k].state.echoSent
  {
    hide NodeInv, OwnProof, StateLive, Authentic, ReadysHaveOrigin, ValidProof, Announced;
    var h := net[sys.proposerId].history;
    assert Live(sys.Config(sys.proposerId), h, net[sys.proposerId].state);
    assert WasSentValue(h, k);
    var p :| (Node(k), Value(p)) in h.sent;
    assert HasSent(h, k, Value(p));
    ValueIsProposed(sys, net, k, p);
    ProposedIsValid(sys, h, k, p);
    assert Live(sys.Config(k), net[k].history, net[k].state);
  }

  lemma ProposedIsValid(sys: System, h: History, k: nat, p: Proof)
    requires sys.Valid() && k < sys.n && OwnProof(sys.Config(sys.proposerId), h, k, p)
    ensures ValidProof(sys.Config(k), p, k)
  {
    hide IsConfig, CollisionFree, Shards;
    ShardCount(sys, h.input.value);
    ProofsAreValid(sys.hash, Shards(sys.coding, h.input.value), k);
  }

  /** At the end of every run in which a correct proposer got an input of less than 2^32
      bytes, every correct node has output it. */
  lemma Delivery(sys: System, actions: seq<Action>, net: Network, i: nat, input: Bytes)
    requires sys.Valid() && Reaches(sys, actions, net) && i in net
    requires Quiescent(sys, net)
    requires sys.proposerId in net && sys.proposerId < sys.n
    requires net[sys.proposerId].history.input == Some(input) && |input| < TWO32
    ensures net[i].history.outputs == [input]
  {
    hide Reaches, NetworkInv, Quiescent, IsConfig, Shards, Payload, IsCodeword, CollisionFree, Lawful;
    RunInv(sys, actions, net);
    ShardCount(sys, input);
    var leaves := Shards(sys.coding, input);
    var root := RootOf(sys, input);
    EveryoneEchoedInput(sys, net, input, i);
    EveryoneReadyForInput(sys, net, input, i);
    MoreThanTwoThirds(sys.n);
    InputIsCodeword(sys, input);
    PayloadRoundTrip(sys.coding, input);
    CodewordAlike(sys, leaves);
    RipeDecides(sys, net, root, leaves, i);
    OneOutput(sys, actions, net, i);
    Validity(sys, actions, net, i, net[i].history.outputs[0]);
  }

  lemma CodewordAlike(sys: System, leaves: seq<Bytes>)
    requires sys.Valid() && |leaves| == sys.n && IsCodeword(sys.coding, leaves)
    ensures DecodeAlike(sys.coding, sys.hash, leaves)
    ensures sys.n >= sys.coding.dataShards
    ensures DecodeFrom(sys.coding, sys.hash, leaves, Validators(sys.n)) == Payload(sys.coding, leaves)
  {
    hide Lawful, CollisionFree, IsCodeword, DecodeAlike, Payload, Root, Leaves, DecodeFrom;
    assert IsConfig(sys.Config(0));
    ValidatorsSize(sys.n);
    DecodeAlikeIff(sys.coding, sys.hash, leaves);
    CodewordDecodes(sys.coding, sys.hash, leaves, Validators(sys.n));
  }

  lemma InputIsCodeword(sys: System, input: Bytes)
    requires sys.Valid()
    ensures sys.coding.dataShards > 0 && IsCodeword(sys.coding, Shards(sys.coding, input))
  {
    ShardsAreCodeword(sys.coding, input);
  }

  lemma EveryoneEchoedInput(sys: System, net: Network, input: Bytes, i: nat)
    requires NetworkInv(sys, net) && Quiescent(sys, net) && i in net
    requires sys.proposerId in net && sys.proposerId < sys.n
    requires net[sys.proposerId].history.input == Some(input)
    ensures sys.coding.dataShards > 0 && |Shards(sys.coding, input)| == sys.n
    ensures |EchosOf(net[i].state, RootOf(sys, input))| >= sys.n - MaxFaulty(sys.n)
  {
    hide NodesOk, Authentic, ReadysHaveOrigin, Quiescent, IsConfig, CollisionFree, Shards, Root, Leaves;
    ShardCount(sys, input);
    var root := RootOf(sys, input);
    forall k | k in Correct(sys) ensures k in EchosOf(net[i].state, root) {
      var p := InputEchoed(sys, net, k);
      EchoCounted(sys, net, i, k, p);
    }
    EnoughCorrect(sys);
    SubsetSize(Correct(sys), EchosOf(net[i].state, root));
  }

  lemma EveryoneReadyForInput(sys: System, net: Network, input: Bytes, i: nat)
    requires NetworkInv(sys, net) && Quiescent(sys, net) && i in net
    requires sys.proposerId in net && sys.proposerId < sys.n
    requires net[sys.proposerId].history.input == Some(input)
    ensures sys.coding.dataShards > 0 && |Shards(sys.coding, input)| == sys.n
    ensures |ReadysOf(net[i].state, RootOf(sys, input))| >= sys.n - MaxFaulty(sys.n)
  {
    hide NodesOk, Authentic, ReadysHaveOrigin, Quiescent, IsConfig, CollisionFree, Shards, RootOf, EchosOf;
    ShardCount(sys, input);
    var root := RootOf(sys, input);
    forall k | k in Correct(sys) ensures k in ReadysOf(net[i].state, root) {
      EveryoneEchoedInput(sys, net, input, k);
      IsAmplified(sys, net, k, root);
      AmplifiedReady(sys, k, net[k].state, root);
      var d := ReadySent(sys, net, k);
      ReadyIsProposed(sys, net, k, d);
      ReadyCounted(sys, net, i, k, root);
    }
    EnoughCorrect(sys);
    SubsetSize(Correct(sys), ReadysOf(net[i].state, root));
  }
}
