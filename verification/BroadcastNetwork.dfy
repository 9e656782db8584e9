/** Runs of Reliable Broadcast: at most `f` of the validators faulty, messages delivered
    in any order, any number of times or never, and a faulty node sending anything under
    its own number. The proposer may be faulty. */
module BroadcastNetwork {
  import opened Options
  import opened Quorums
  import opened Merkle
  import opened ErasureCoding
  import opened BroadcastSpec
  import opened BroadcastNode
  import opened BroadcastProgress
  import IdealHash

  /** Who takes part. Correct nodes may include observers, numbered `n` or more. */
  datatype System = System(
    n: nat, faulty: set<nat>, correct: set<nat>, proposerId: nat, coding: Coding, hash: Hash)
  {
    ghost predicate Valid() {
      && n > 0
      && |faulty| <= MaxFaulty(n)
      && faulty !! correct
      && Validators(n) <= faulty + correct
      && IsConfig(Config(0))
      && CollisionFree(hash)
    }

    function Config(id: nat): Config
      requires n > 0
    {
      BroadcastSpec.Config(NetInfo(n, id), proposerId, coding, hash)
    }
  }

  datatype Peer = Peer(state: State, history: History)

  type Network = map<nat, Peer>

  datatype Action =
    | Input(to: nat, value: Bytes)
    | Deliver(to: nat, from: nat, msg: Message)

  const NO_HISTORY := History({}, {}, None, [])

  function Initial(sys: System): Network {
    map id | id in sys.correct :: Peer(INITIAL, NO_HISTORY)
  }

  ghost predicate WellFormed(sys: System, net: Network) {
    sys.Valid() && net.Keys == sys.correct
  }

  /** Whether the node has sent this message to `to`. */
  ghost predicate HasSent(h: History, to: nat, msg: Message) {
    (All, msg) in h.sent || (Node(to), msg) in h.sent
  }

  /** A correct sender must have sent the message. A faulty one may send any. */
  ghost predicate Enabled(net: Network, a: Action) {
    && a.to in net
    && (a.Deliver? ==> a.from != a.to && (a.from in net ==> HasSent(net[a.from].history, a.to, a.msg)))
  }

  ghost function Act(sys: System, net: Network, a: Action): Reply
    requires WellFormed(sys, net) && Enabled(net, a)
  {
    match a
    case Input(to, value) => Broadcast(sys.Config(to), net[to].state, value)
    case Deliver(to, from, msg) => HandleMessage(sys.Config(to), net[to].state, from, msg)
  }

  /** The history of the acting node, just before it acts. Only a call that does not fail
      takes an input. */
  function Before(h: History, a: Action, done: bool): History {
    match a
    case Input(_, value) => if done then h.(input := Some(value)) else h
    case Deliver(_, from, msg) => h.(heard := h.heard + {(from, msg)})
  }

  ghost function Apply(sys: System, net: Network, a: Action): (r: Network)
    requires WellFormed(sys, net) && Enabled(net, a)
    ensures WellFormed(sys, r)
  {
    var r := Act(sys, net, a);
    var h := Before(net[a.to].history, a, r.Done?);
    net[a.to := Peer(r.state, if r.Done? then Extend(sys.Config(a.to), h, r.step) else h)]
  }

  ghost predicate IsStep(sys: System, before: Network, a: Action, after: Network) {
    WellFormed(sys, before) && Enabled(before, a) && after == Apply(sys, before, a)
  }

  /** The states of a network while it takes these actions, up to `net`. */
  ghost predicate IsRun(sys: System, actions: seq<Action>, states: seq<Network>, net: Network) {
    && |states| == |actions| + 1
    && states[0] == Initial(sys) && states[|actions|] == net
    && forall k {:trigger actions[k]} :: 0 <= k < |actions| ==> IsStep(sys, states[k], actions[k], states[k + 1])
  }

  /** `net` is the result of some run. */
  ghost predicate Reaches(sys: System, actions: seq<Action>, net: Network) {
    exists states: seq<Network> :: IsRun(sys, actions, states, net)
  }

  /** Every set of at most `f` faulty validators makes a system, which has runs, if the code
      is lawful. Without faulty nodes the concrete one is. */
  lemma SystemsExist(n: nat, faulty: set<nat>, proposerId: nat, coding: Coding) returns (sys: System)
    requires n > 0 && faulty <= Validators(n) && |faulty| <= MaxFaulty(n)
    requires if MaxFaulty(n) == 0 then coding == Trivial(n) else
               Lawful(coding) && coding.ParityShardCount() == 2 * MaxFaulty(n) && coding.dataShards == n - 2 * MaxFaulty(n)
    ensures sys.Valid() && sys.n == n && sys.faulty == faulty && sys.coding == coding
    ensures Reaches(sys, [], Initial(sys))
  {
    hide Lawful, CollisionFree;
    var hash := IdealHash.HashesExist();
    TrivialIsLawful(n);
    sys := System(n, faulty, Validators(n) - faulty, proposerId, coding, hash);
    assert IsConfig(sys.Config(0));
    assert IsRun(sys, [], [Initial(sys)], Initial(sys));
  }

  // ----- The invariant of a run -----

  /** What a correct node heard from a correct one, that one has sent to it. */
  ghost predicate Authentic(net: Network) {
    forall i, j, m :: i in net && j in net && (j, m) in net[i].history.heard ==>
                        HasSent(net[j].history, i, m) && (m.Value? ==> i != j)
  }

  ghost predicate SomeEchoed(sys: System, net: Network, root: Digest)
    requires sys.n > 0
  {
    exists k :: k in net && Echoed(sys.Config(k), net[k].history, root)
  }

  /** Behind every `Ready` of a correct node are `N - f` `Echo`s, seen by some correct node. */
  ghost predicate ReadysHaveOrigin(sys: System, net: Network)
    requires sys.n > 0
  {
    forall i, d :: i in net && (i, Ready(d)) in net[i].history.heard ==> SomeEchoed(sys, net, d)
  }

  ghost predicate NodesOk(sys: System, net: Network)
    requires sys.n > 0
  {
    forall i {:trigger NodeInv(sys.Config(i), net[i].history, net[i].state)}
      {:trigger Live(sys.Config(i), net[i].history, net[i].state)} ::
      i in net ==> NodeInv(sys.Config(i), net[i].history, net[i].state)
                   && Live(sys.Config(i), net[i].history, net[i].state)
  }

  ghost predicate NetworkInv(sys: System, net: Network) {
    WellFormed(sys, net) && NodesOk(sys, net) && Authentic(net) && ReadysHaveOrigin(sys, net)
  }

  lemma ConfigsOk(sys: System, i: nat)
    requires sys.Valid()
    ensures IsConfig(sys.Config(i))
  {
  }

  lemma InitialInv(sys: System)
    requires sys.Valid()
    ensures NetworkInv(sys, Initial(sys))
  {
    hide NodeInv, Live, SomeEchoed;
    forall i | i in sys.correct
      ensures NodeInv(sys.Config(i), NO_HISTORY, INITIAL) && Live(sys.Config(i), NO_HISTORY, INITIAL)
    {
      InitialNode(sys.Config(i));
    }
  }

  lemma InitialNode(cfg: Config)
    ensures NodeInv(cfg, NO_HISTORY, INITIAL) && Live(cfg, NO_HISTORY, INITIAL)
  {
    hide DecodeFromShards;
    forall d ensures Amplified(cfg, INITIAL, d) && Quiet(cfg, INITIAL, d) {
      assert ReadysOf(INITIAL, d) == {} && EchosOf(INITIAL, d) == {};
    }
  }

  lemma StepGrows(sys: System, net: Network, a: Action)
    requires WellFormed(sys, net) && Enabled(net, a)
    ensures var net' := Apply(sys, net, a);
            && net'.Keys == net.Keys
            && (forall i :: i in net ==> net[i].history.heard <= net'[i].history.heard
                                         && net[i].history.sent <= net'[i].history.sent)
            && (forall i :: i in net && i != a.to ==> net'[i] == net[i])
  {
    hide Act;
  }

  lemma OriginsGrow(sys: System, net: Network, net': Network, root: Digest)
    requires sys.n > 0 && net.Keys == net'.Keys && SomeEchoed(sys, net, root)
    requires forall i :: i in net ==> net[i].history.heard <= net'[i].history.heard
    ensures SomeEchoed(sys, net', root)
  {
    hide Echoed;
    var k :| k in net && Echoed(sys.Config(k), net[k].history, root);
    VotersGrow(sys.Config(k), net[k].history, net'[k].history, root);
  }

  /** The acting node keeps its claims. */
  lemma ActorOk(sys: System, net: Network, a: Action)
    requires NetworkInv(sys, net) && Enabled(net, a)
    ensures var node := Apply(sys, net, a)[a.to];
            NodeInv(sys.Config(a.to), node.history, node.state) && Live(sys.Config(a.to), node.history, node.state)
  {
    hide NodeInv, Live, Authentic, ReadysHaveOrigin, IsConfig;
    var cfg := sys.Config(a.to);
    ConfigsOk(sys, a.to);
    var s, h := net[a.to].state, net[a.to].history;
    assert NodeInv(cfg, h, s) && Live(cfg, h, s);
    match a {
      case Input(to, value) =>
        if cfg.net.ourId == cfg.proposerId && !s.valueSent {
          if cfg.net.IsValidator() {
            BroadcastOk(cfg, h, s, value);
            BroadcastLive(cfg, h, s, value);
          } else {
            NoInput(cfg, h, s);
          }
        }
      case Deliver(to, from, msg) =>
        var h1 := h.(heard := h.heard + {(from, msg)});
        ReceiveOk(cfg, h, h1, s);
        if from < cfg.net.n {
          HandleMessageOk(cfg, h1, s, from, msg);
          HandleMessageLive(cfg, h, s, from, msg);
        } else {
          UnknownSenderLive(cfg, h, s, from, msg);
        }
    }
  }

  /** A failed input changes no more than `value_sent`. */
  lemma NoInput(cfg: Config, h: History, s: State)
    requires NodeInv(cfg, h, s) && Live(cfg, h, s)
    ensures NodeInv(cfg, h, s.(valueSent := true)) && Live(cfg, h, s.(valueSent := true))
  {
    hide StateLive, OwnEcho, OwnReady, OwnOutput, OwnProof, ValidProof, WasSentValue;
    SetEchoSentLive(cfg, s);
  }

  /** What a step adds to what is heard: the message delivered, and what was multicast. */
  lemma NewlyHeard(sys: System, net: Network, a: Action, j: nat, m: Message)
    requires WellFormed(sys, net) && Enabled(net, a)
    requires (j, m) in Apply(sys, net, a)[a.to].history.heard && (j, m) !in net[a.to].history.heard
    ensures || (a.Deliver? && a.from == j && a.msg == m)
            || (j == a.to && (All, m) in Apply(sys, net, a)[a.to].history.sent)
  {
    hide Act, WellFormed, Enabled;
  }

  lemma StepAuthentic(sys: System, net: Network, a: Action)
    requires NetworkInv(sys, net) && Enabled(net, a)
    requires NodesOk(sys, Apply(sys, net, a))
    ensures Authentic(Apply(sys, net, a))
  {
    hide NodesOk, Apply, ReadysHaveOrigin, WellFormed, HasSent, Authentic;
    var net' := Apply(sys, net, a);
    forall i, j, m | i in net' && j in net' && (j, m) in net'[i].history.heard
      ensures HasSent(net'[j].history, i, m) && (m.Value? ==> i != j)
    {
      StepAuthenticAt(sys, net, a, i, j, m);
    }
    IsAuthentic(net');
  }

  lemma IsAuthentic(net: Network)
    requires forall i, j, m | i in net && j in net && (j, m) in net[i].history.heard ::
               HasSent(net[j].history, i, m) && (m.Value? ==> i != j)
    ensures Authentic(net)
  {
    hide HasSent;
  }

  lemma AuthenticAt(net: Network, i: nat, j: nat, m: Message)
    requires Authentic(net) && i in net && j in net && (j, m) in net[i].history.heard
    ensures HasSent(net[j].history, i, m) && (m.Value? ==> i != j)
  {
    hide HasSent;
  }

  lemma StepAuthenticAt(sys: System, net: Network, a: Action, i: nat, j: nat, m: Message)
    requires NetworkInv(sys, net) && Enabled(net, a)
    requires var net' := Apply(sys, net, a);
             NodesOk(sys, net') && i in net' && j in net' && (j, m) in net'[i].history.heard
    ensures HasSent(Apply(sys, net, a)[j].history, i, m) && (m.Value? ==> i != j)
  {
    hide NodesOk, Apply, ReadysHaveOrigin, IsConfig, Authentic;
    var net' := Apply(sys, net, a);
    StepGrows(sys, net, a);
    if (j, m) in net[i].history.heard {
      AuthenticAt(net, i, j, m);
    } else {
      NewlyHeard(sys, net, a, j, m);
      if !(a.Deliver? && a.from == j && a.msg == m) {
        NoValueForAll(sys, net', i, m);
      }
    }
  }

  lemma NoValueForAll(sys: System, net: Network, i: nat, m: Message)
    requires sys.n > 0 && NodesOk(sys, net) && i in net && (All, m) in net[i].history.sent
    ensures !m.Value?
  {
    hide Received, OwnEcho, OwnReady, OwnOutput, OwnProof, Live;
    assert NodeInv(sys.Config(i), net[i].history, net[i].state);
  }

  /** A correct validator among the voters. */
  lemma CorrectVoter(sys: System, net: Network, voters: set<nat>) returns (k: nat)
    requires WellFormed(sys, net)
    requires voters <= Validators(sys.n) && |voters| > MaxFaulty(sys.n)
    ensures k in voters && k in net && k < sys.n
  {
    hide IsConfig;
    k := HasCorrect(voters, sys.faulty);
    assert k in Validators(sys.n);
  }

  lemma VotersAreValidators(sys: System, i: nat, h: History, root: Digest)
    requires sys.n > 0
    ensures EchoVoters(sys.Config(i), h, root) <= Validators(sys.n)
    ensures ReadyVoters(sys.Config(i), h, root) <= Validators(sys.n)
  {
  }

  lemma JustifiedReady(sys: System, net: Network, i: nat, d: Digest)
    requires sys.n > 0 && NodesOk(sys, net) && i in net && (i, Ready(d)) in net[i].history.heard
    ensures ReadyJustified(sys.Config(i), net[i].history, d)
  {
    hide Received, OwnEcho, OwnSent, OwnOutput, OwnProof, Live, ReadyJustified;
    assert NodeInv(sys.Config(i), net[i].history, net[i].state);
  }

  lemma SentIsHeard(sys: System, net: Network, i: nat, j: nat, m: Message)
    requires sys.n > 0 && NodesOk(sys, net) && Authentic(net) && i in net && j in net
    requires (j, m) in net[i].history.heard && !m.Value?
    ensures (j, m) in net[j].history.heard
  {
    hide Received, OwnEcho, OwnReady, OwnOutput, OwnProof, Live;
    assert NodeInv(sys.Config(j), net[j].history, net[j].state);
    assert HasSent(net[j].history, i, m);
  }

  lemma StepReadys(sys: System, net: Network, a: Action)
    requires NetworkInv(sys, net) && Enabled(net, a)
    requires NodesOk(sys, Apply(sys, net, a)) && Authentic(Apply(sys, net, a))
    ensures ReadysHaveOrigin(sys, Apply(sys, net, a))
  {
    hide NodesOk, Act, Authentic, IsConfig, Echoed;
    var net' := Apply(sys, net, a);
    StepGrows(sys, net, a);
    forall i, d | i in net' && (i, Ready(d)) in net'[i].history.heard ensures SomeEchoed(sys, net', d) {
      if (i, Ready(d)) in net[i].history.heard {
        OriginsGrow(sys, net, net', d);
      } else {
        JustifiedReady(sys, net', i, d);
        var cfg, h := sys.Config(i), net'[i].history;
        if !Echoed(cfg, h, d) {
          VotersAreValidators(sys, i, h, d);
          var k := CorrectVoter(sys, net', ReadyVoters(cfg, h, d) - {i});
          SentIsHeard(sys, net', i, k, Ready(d));
          assert (k, Ready(d)) in net[k].history.heard;
          OriginsGrow(sys, net, net', d);
        }
      }
    }
  }

  lemma StepInv(sys: System, net: Network, a: Action)
    requires NetworkInv(sys, net) && Enabled(net, a)
    ensures NetworkInv(sys, Apply(sys, net, a))
  {
    hide NodeInv, Live, SomeEchoed, Act;
    ActorOk(sys, net, a);
    StepGrows(sys, net, a);
    assert NodesOk(sys, Apply(sys, net, a));
    StepAuthentic(sys, net, a);
    StepReadys(sys, net, a);
  }

  /** Every run keeps the invariant. */
  lemma RunInv(sys: System, actions: seq<Action>, net: Network)
    requires sys.Valid() && Reaches(sys, actions, net)
    ensures NetworkInv(sys, net)
  {
    hide NetworkInv, IsStep, Initial;
    var states: seq<Network> :| IsRun(sys, actions, states, net);
    PrefixInv(sys, actions, states, net, |actions|);
  }

  lemma {:induction false} PrefixInv(sys: System, actions: seq<Action>, states: seq<Network>, net: Network, k: nat)
    requires sys.Valid() && IsRun(sys, actions, states, net) && k <= |actions|
    ensures NetworkInv(sys, states[k])
  {
    hide NetworkInv, IsStep, Initial;
    if k == 0 {
      InitialInv(sys);
    } else {
      PrefixInv(sys, actions, states, net, k - 1);
      StepOf(sys, actions, states, net, k - 1);
      IsStepInv(sys, states[k - 1], actions[k - 1], states[k]);
    }
  }

  lemma IsStepInv(sys: System, before: Network, a: Action, after: Network)
    requires NetworkInv(sys, before) && IsStep(sys, before, a, after)
    ensures NetworkInv(sys, after)
  {
    hide NetworkInv, Apply, WellFormed, Enabled;
    StepInv(sys, before, a);
  }

  lemma StepOf(sys: System, actions: seq<Action>, states: seq<Network>, net: Network, k: nat)
    requires IsRun(sys, actions, states, net) && k < |actions|
    ensures IsStep(sys, states[k], actions[k], states[k + 1])
  {
    hide IsStep, Initial;
    var _ := actions[k];
  }

  /** Whatever is enabled can be the next action of a run. */
  lemma RunExtends(sys: System, actions: seq<Action>, net: Network, a: Action)
    requires sys.Valid() && Reaches(sys, actions, net) && Enabled(net, a)
    ensures WellFormed(sys, net) && Reaches(sys, actions + [a], Apply(sys, net, a))
  {
    hide IsStep, IsRun, WellFormed, Enabled, Apply, NetworkInv;
    RunInv(sys, actions, net);
    CanStep(sys, net, a);
    var states: seq<Network> :| IsRun(sys, actions, states, net);
    LongerRun(sys, actions, states, net, a, Apply(sys, net, a));
  }

  lemma CanStep(sys: System, net: Network, a: Action)
    requires NetworkInv(sys, net) && Enabled(net, a)
    ensures WellFormed(sys, net) && IsStep(sys, net, a, Apply(sys, net, a))
  {
    assert WellFormed(sys, net);
    hide Apply, WellFormed, Enabled;
  }

  lemma LongerRun(sys: System, actions: seq<Action>, states: seq<Network>, net: Network, a: Action, after: Network)
    requires IsRun(sys, actions, states, net) && IsStep(sys, net, a, after)
    ensures IsRun(sys, actions + [a], states + [after], after)
  {
    hide IsStep, Initial;
    var longer, next := states + [after], actions + [a];
    forall k | 0 <= k < |next| ensures IsStep(sys, longer[k], next[k], longer[k + 1]) {
      if k < |actions| {
        assert actions[k] == next[k];
      }
    }
  }
}
