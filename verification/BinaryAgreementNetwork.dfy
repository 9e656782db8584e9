/** Runs of Binary Agreement: any number of nodes, at most `f` of the validators
    faulty, messages delivered in any order and any number of times, and a faulty
    validator sending anything under its own number. */
module BinaryAgreementNetwork {
  import opened Options
  import opened Quorums
  import opened BinaryAgreementSpec
  import opened BinaryAgreementHistory
  import opened BinaryAgreementNode
  import Sbv = SbvSpec
  import Ts = ThresholdSignSpec

  /** Who takes part. Correct nodes may include observers, numbered `n` or more. */
  datatype System = System(n: nat, faulty: set<nat>, correct: set<nat>, coin: nat -> bool) {
    ghost predicate Valid() {
      && n > 0
      && |faulty| <= MaxFaulty(n)
      && faulty !! correct
      && Validators(n) <= faulty + correct
    }

    function Config(id: nat): Config
      requires n > 0
    {
      BinaryAgreementSpec.Config(NetInfo(n, id), coin)
    }
  }

  datatype Node = Node(state: State, history: History)

  type Network = map<nat, Node>

  datatype Action =
    | Input(to: nat, value: bool)
    | Deliver(to: nat, from: nat, msg: Message)

  const NO_HISTORY := History({}, {})

  function Initial(sys: System): Network {
    map id | id in sys.correct :: Node(INITIAL, NO_HISTORY)
  }

  ghost predicate WellFormed(sys: System, net: Network) {
    && sys.Valid()
    && net.Keys == sys.correct
    && forall i :: i in net ==> Settled(sys.Config(i), net[i].state)
  }

  /** A correct sender must have sent the message. A faulty one may send any. */
  ghost predicate Enabled(sys: System, net: Network, a: Action) {
    && a.to in net
    && (a.Deliver? ==>
          && a.from < sys.n
          && a.from != a.to
          && (a.from in net ==> (a.from, a.msg) in net[a.from].history.heard))
  }

  /** The history of the acting node, just before it acts. */
  function Received(h: History, a: Action): History {
    match a
    case Input(_, value) => h.(proposed := h.proposed + {value})
    case Deliver(_, from, msg) => h.(heard := h.heard + {(from, msg)})
  }

  ghost function Act(sys: System, net: Network, a: Action): (r: Outcome)
    requires WellFormed(sys, net) && Enabled(sys, net, a)
    ensures Settled(sys.Config(a.to), r.state)
  {
    match a
    case Input(to, value) => Propose(sys.Config(to), net[to].state, value)
    case Deliver(to, from, msg) => HandleMessage(sys.Config(to), net[to].state, from, msg)
  }

  ghost function Apply(sys: System, net: Network, a: Action): (r: Network)
    requires WellFormed(sys, net) && Enabled(sys, net, a)
    ensures WellFormed(sys, r)
  {
    var r := Act(sys, net, a);
    var h := Extend(sys.Config(a.to), Received(net[a.to].history, a), r.step.messages);
    net[a.to := Node(r.state, h)]
  }

  ghost predicate IsStep(sys: System, before: Network, a: Action, after: Network) {
    WellFormed(sys, before) && Enabled(sys, before, a) && after == Apply(sys, before, a)
  }

  /** The states of a network while it takes these actions, up to `net`. */
  ghost predicate IsRun(sys: System, actions: seq<Action>, states: seq<Network>, net: Network) {
    && |states| == |actions| + 1
    && states[0] == Initial(sys) && states[|actions|] == net
    && forall k {:trigger actions[k]} :: 0 <= k < |actions| ==> IsStep(sys, states[k], actions[k], states[k + 1])
  }

  /** `net` is the result of some run. */
  ghost predicate Reaches(sys: System, actions: seq<Action>, net: Network) {
    exists states: seq<Network> :: IsRun(sys, actions, states, net)
  }

  /** Every set of at most `f` faulty validators makes a system, which has runs. */
  lemma SystemsExist(n: nat, faulty: set<nat>, coin: nat -> bool)
    requires n > 0 && faulty <= Validators(n) && |faulty| <= MaxFaulty(n)
    ensures var sys := System(n, faulty, Validators(n) - faulty, coin);
            sys.Valid() && Reaches(sys, [], Initial(sys))
  {
    var sys := System(n, faulty, Validators(n) - faulty, coin);
    assert IsRun(sys, [], [Initial(sys)], Initial(sys));
  }

  // ----- The invariant of a run -----

  /** What a correct node heard from another one, that one has said. */
  ghost predicate Authentic(net: Network) {
    forall i, j, m ::
      i in net && j in net && (j, m) in net[i].history.heard ==> (j, m) in net[j].history.heard
  }

  /** Some correct node vouches for `b` in this epoch for a reason of its own. */
  ghost predicate HasOrigin(sys: System, net: Network, epoch: nat, b: bool)
    requires sys.n > 0
  {
    exists k :: k in net && IsOrigin(sys, net[k].history, k, epoch, b)
  }

  ghost predicate IsOrigin(sys: System, h: History, k: nat, epoch: nat, b: bool)
    requires sys.n > 0
  {
    CanEnter(sys.Config(k), h, epoch, b) || TermBy(h, epoch, b, k)
  }

  ghost predicate BvalsHaveOrigin(sys: System, net: Network)
    requires sys.n > 0
  {
    forall i, e: nat, b ::
      i in net && Said(net[i].history, i, e, SbvBroadcast(Sbv.BVal(b))) ==> HasOrigin(sys, net, e, b)
  }

  /** Some correct node has seen the `Conf` round of this epoch complete. */
  ghost predicate SomeConfRoundDone(sys: System, net: Network, epoch: nat)
    requires sys.n > 0
  {
    exists k :: k in net && ConfRoundDone(sys.Config(k), net[k].history, epoch)
  }

  ghost predicate CoinsHaveOrigin(sys: System, net: Network)
    requires sys.n > 0
  {
    forall i, e: nat, c ::
      i in net && Said(net[i].history, i, e, Coin(c)) ==> SomeConfRoundDone(sys, net, e)
  }

  ghost predicate NetworkInv(sys: System, net: Network) {
    && WellFormed(sys, net)
    && (forall i {:trigger NodeInv(sys.Config(i), net[i].history, net[i].state)} ::
          i in net ==> NodeInv(sys.Config(i), net[i].history, net[i].state))
    && Authentic(net)
    && BvalsHaveOrigin(sys, net)
    && CoinsHaveOrigin(sys, net)
  }

  lemma InitialInv(sys: System)
    requires sys.Valid()
    ensures NetworkInv(sys, Initial(sys))
  {
    hide NodeInv, HasOrigin, SomeConfRoundDone;
    forall i | i in sys.correct ensures NodeInv(sys.Config(i), NO_HISTORY, INITIAL) {
      InitialNodeInv(sys.Config(i));
    }
  }

  lemma InitialNodeInv(cfg: Config)
    ensures NodeInv(cfg, NO_HISTORY, INITIAL)
  {
    hide BvalJustified, Believed, CoinJustified;
    assert SbvInv(cfg, NO_HISTORY, 0, Sbv.INITIAL);
  }

  /** Every step adds to the history of one node and to no other. */
  lemma StepGrows(sys: System, net: Network, a: Action)
    requires WellFormed(sys, net) && Enabled(sys, net, a)
    ensures var net' := Apply(sys, net, a);
            && net'.Keys == net.Keys
            && (forall i :: i in net ==> Extends(net[i].history, net'[i].history))
            && (forall i :: i in net && i != a.to ==> net'[i] == net[i])
  {
    hide Settled, Propose, HandleMessage, Act;
  }

  lemma OriginsGrow(sys: System, net: Network, net': Network)
    requires sys.n > 0 && net.Keys == net'.Keys
    requires forall i :: i in net ==> Extends(net[i].history, net'[i].history)
    ensures forall e: nat, b :: HasOrigin(sys, net, e, b) ==> HasOrigin(sys, net', e, b)
    ensures forall e: nat :: SomeConfRoundDone(sys, net, e) ==> SomeConfRoundDone(sys, net', e)
  {
    forall e: nat, b | HasOrigin(sys, net, e, b) ensures HasOrigin(sys, net', e, b) {
      var k :| k in net && IsOrigin(sys, net[k].history, k, e, b);
      CertsGrow(sys.Config(k), net[k].history, net'[k].history);
      if TermBy(net[k].history, e, b, k) {
        TermConfirms(net[k].history, net'[k].history, e, e, k, b);
        var t: nat :| t <= e && Said(net[k].history, k, t, Term(b));
        assert Said(net'[k].history, k, t, Term(b));
      }
      assert IsOrigin(sys, net'[k].history, k, e, b);
    }
    forall e: nat | SomeConfRoundDone(sys, net, e) ensures SomeConfRoundDone(sys, net', e) {
      var k :| k in net && ConfRoundDone(sys.Config(k), net[k].history, e);
      var vals: set<bool> :| ConfRound(sys.Config(k), net[k].history, e, vals);
      CertsGrow(sys.Config(k), net[k].history, net'[k].history);
      VotersGrow(sys.Config(k), net[k].history, net'[k].history);
      SubsetSize(
        ConfVoters(sys.Config(k), net[k].history, e, vals), ConfVoters(sys.Config(k), net'[k].history, e, vals));
      assert ConfRound(sys.Config(k), net'[k].history, e, vals);
    }
  }

  lemma StepNodeInv(sys: System, net: Network, a: Action)
    requires NetworkInv(sys, net) && Enabled(sys, net, a)
    ensures var net' := Apply(sys, net, a);
            forall i :: i in net' ==> NodeInv(sys.Config(i), net'[i].history, net'[i].state)
  {
    hide NodeInv, BvalsHaveOrigin, CoinsHaveOrigin, Authentic;
    var cfg := sys.Config(a.to);
    var h := net[a.to].history;
    var h1 := Received(h, a);
    ReceiveOk(cfg, h, h1, net[a.to].state);
    match a {
      case Input(to, value) => ProposeOk(cfg, h1, net[to].state, value);
      case Deliver(to, from, msg) => HandleMessageOk(cfg, h1, net[to].state, from, msg);
    }
  }

  lemma StepAuthentic(sys: System, net: Network, a: Action)
    requires NetworkInv(sys, net) && Enabled(sys, net, a)
    ensures Authentic(Apply(sys, net, a))
  {
    hide NodeInv, Settled, Act, BvalsHaveOrigin, CoinsHaveOrigin;
    var net' := Apply(sys, net, a);
    StepGrows(sys, net, a);
    forall i, j, m | i in net' && j in net' && (j, m) in net'[i].history.heard
      ensures (j, m) in net'[j].history.heard
    {
      if i == a.to && j != i {
        assert (j, m) in Received(net[i].history, a).heard;
      }
    }
  }

  /** A correct validator among the voters that is not `i`, with its vote as it cast it. */
  lemma CorrectVoter(sys: System, net: Network, voters: set<nat>) returns (k: nat)
    requires sys.Valid() && net.Keys == sys.correct
    requires voters <= Validators(sys.n) && |voters| > MaxFaulty(sys.n)
    ensures k in voters && k in net
  {
    k := HasCorrect(voters, sys.faulty);
    assert k in Validators(sys.n);
  }

  lemma StepBvals(sys: System, net: Network, a: Action)
    requires NetworkInv(sys, net) && Enabled(sys, net, a)
    ensures BvalsHaveOrigin(sys, Apply(sys, net, a))
  {
    hide StateInv, OwnTerm, OwnCoin, SomeConfRoundDone, CanEnter, Settled, Act, CoinsHaveOrigin;
    var net' := Apply(sys, net, a);
    StepGrows(sys, net, a);
    OriginsGrow(sys, net, net');
    StepNodeInv(sys, net, a);
    StepAuthentic(sys, net, a);
    forall i, e: nat, b | i in net' && Said(net'[i].history, i, e, SbvBroadcast(Sbv.BVal(b)))
      ensures HasOrigin(sys, net', e, b)
    {
      if !Said(net[i].history, i, e, SbvBroadcast(Sbv.BVal(b))) {
        var cfg := sys.Config(i);
        var h := net'[i].history;
        assert BvalJustified(cfg, h, e, b);
        if CanEnter(cfg, h, e, b) {
          assert IsOrigin(sys, h, i, e, b);
        } else {
          var k := CorrectVoter(sys, net, BvalVoters(cfg, h, e, b) - {i});
          BvalVoteIsOwn(net', i, k, e, b);
          if TermBy(net'[k].history, e, b, k) {
            assert IsOrigin(sys, net'[k].history, k, e, b);
          } else {
            assert Said(net[k].history, k, e, SbvBroadcast(Sbv.BVal(b)));
          }
        }
      }
    }
  }

  lemma StepCoins(sys: System, net: Network, a: Action)
    requires NetworkInv(sys, net) && Enabled(sys, net, a)
    ensures CoinsHaveOrigin(sys, Apply(sys, net, a))
  {
    hide SbvInv, StateInv, OwnTerm, HasOrigin, ConfRoundDone, Settled, Act, BvalsHaveOrigin;
    var net' := Apply(sys, net, a);
    StepGrows(sys, net, a);
    OriginsGrow(sys, net, net');
    StepNodeInv(sys, net, a);
    StepAuthentic(sys, net, a);
    forall i, e: nat, c | i in net' && Said(net'[i].history, i, e, Coin(c))
      ensures SomeConfRoundDone(sys, net', e)
    {
      if !Said(net[i].history, i, e, Coin(c)) {
        var cfg := sys.Config(i);
        var h := net'[i].history;
        assert CoinJustified(cfg, h, e);
        if !ConfRoundDone(cfg, h, e) {
          var k := CorrectVoter(sys, net, CoinVoters(cfg, h, e) - {i});
          assert Said(net'[k].history, k, e, Coin(Ts.Share(k, e)));
          assert Said(net[k].history, k, e, Coin(Ts.Share(k, e)));
        }
      }
    }
  }

  lemma StepInv(sys: System, net: Network, a: Action)
    requires NetworkInv(sys, net) && Enabled(sys, net, a)
    ensures NetworkInv(sys, Apply(sys, net, a))
  {
    hide NodeInv, HasOrigin, SomeConfRoundDone;
    StepNodeInv(sys, net, a);
    StepAuthentic(sys, net, a);
    StepBvals(sys, net, a);
    StepCoins(sys, net, a);
  }

  /** Every run keeps the invariant. In particular every enabled action can be taken. */
  lemma RunInv(sys: System, actions: seq<Action>, net: Network)
    requires sys.Valid() && Reaches(sys, actions, net)
    ensures NetworkInv(sys, net)
  {
    hide NetworkInv, IsStep, Initial;
    var states: seq<Network> :| IsRun(sys, actions, states, net);
    PrefixInv(sys, actions, states, net, |actions|);
  }

  lemma {:induction false} PrefixInv(sys: System, actions: seq<Action>, states: seq<Network>, net: Network, k: nat)
    requires sys.Valid() && IsRun(sys, actions, states, net) && k <= |actions|
    ensures NetworkInv(sys, states[k])
  {
    hide NetworkInv, IsStep, Initial;
    if k == 0 {
      InitialInv(sys);
    } else {
      PrefixInv(sys, actions, states, net, k - 1);
      StepOf(sys, actions, states, net, k - 1);
      IsStepInv(sys, states[k - 1], actions[k - 1], states[k]);
    }
  }

  lemma IsStepInv(sys: System, before: Network, a: Action, after: Network)
    requires NetworkInv(sys, before) && IsStep(sys, before, a, after)
    ensures NetworkInv(sys, after)
  {
    hide NetworkInv, Apply, WellFormed, Enabled;
    StepInv(sys, before, a);
  }

  lemma StepOf(sys: System, actions: seq<Action>, states: seq<Network>, net: Network, k: nat)
    requires IsRun(sys, actions, states, net) && k < |actions|
    ensures IsStep(sys, states[k], actions[k], states[k + 1])
  {
    hide IsStep, Initial;
    var _ := actions[k];
  }

  /** As a run goes on, what nodes have heard and said stays. */
  lemma {:induction false} RunGrows(
    sys: System, actions: seq<Action>, states: seq<Network>, net: Network, a: nat, b: nat)
    requires IsRun(sys, actions, states, net) && a <= b <= |actions|
    ensures states[a].Keys == states[b].Keys
    ensures forall i :: i in states[a] ==> Extends(states[a][i].history, states[b][i].history)
    decreases b - a
  {
    hide Extends, IsStep, Initial;
    if a == b {
      forall i | i in states[a] ensures Extends(states[a][i].history, states[a][i].history) {
        ExtendsItself(states[a][i].history);
      }
    } else {
      RunGrows(sys, actions, states, net, a, b - 1);
      StepOf(sys, actions, states, net, b - 1);
      IsStepGrows(sys, states[b - 1], actions[b - 1], states[b]);
      forall i | i in states[a] ensures Extends(states[a][i].history, states[b][i].history) {
        ExtendsTwice(states[a][i].history, states[b - 1][i].history, states[b][i].history);
      }
    }
  }

  lemma ExtendsItself(h: History)
    ensures Extends(h, h)
  {
  }

  lemma ExtendsTwice(g: History, h: History, k: History)
    requires Extends(g, h) && Extends(h, k)
    ensures Extends(g, k)
  {
  }

  lemma IsStepGrows(sys: System, before: Network, a: Action, after: Network)
    requires IsStep(sys, before, a, after)
    ensures before.Keys == after.Keys
    ensures forall i :: i in before ==> Extends(before[i].history, after[i].history)
  {
    hide Apply, WellFormed, Enabled, Extends;
    StepGrows(sys, before, a);
  }

  /** Whatever is enabled can be the next action of a run. */
  lemma RunExtends(sys: System, actions: seq<Action>, net: Network, a: Action)
    requires sys.Valid() && Reaches(sys, actions, net) && Enabled(sys, net, a)
    ensures WellFormed(sys, net) && Reaches(sys, actions + [a], Apply(sys, net, a))
  {
    hide IsStep, IsRun, WellFormed, Enabled, Apply, NetworkInv;
    RunInv(sys, actions, net);
    CanStep(sys, net, a);
    var states: seq<Network> :| IsRun(sys, actions, states, net);
    LongerRun(sys, actions, states, net, a, Apply(sys, net, a));
  }

  lemma CanStep(sys: System, net: Network, a: Action)
    requires NetworkInv(sys, net) && Enabled(sys, net, a)
    ensures WellFormed(sys, net) && IsStep(sys, net, a, Apply(sys, net, a))
  {
    assert WellFormed(sys, net);
    hide Apply, WellFormed, Enabled;
  }

  lemma LongerRun(sys: System, actions: seq<Action>, states: seq<Network>, net: Network, a: Action, after: Network)
    requires IsRun(sys, actions, states, net) && IsStep(sys, net, a, after)
    ensures IsRun(sys, actions + [a], states + [after], after)
  {
    hide IsStep, Initial;
    var longer, next := states + [after], actions + [a];
    forall k | 0 <= k < |next| ensures IsStep(sys, longer[k], next[k], longer[k + 1]) {
      if k < |actions| {
        assert actions[k] == next[k];
      }
    }
  }

  // ----- Votes are as their voters cast them -----

  lemma TermIsOwn(net: Network, i: nat, k: nat, epoch: nat, b: bool)
    requires Authentic(net) && i in net && k in net && TermBy(net[i].history, epoch, b, k)
    ensures TermBy(net[k].history, epoch, b, k)
  {
    var t: nat :| t <= epoch && Said(net[i].history, k, t, Term(b));
    assert Said(net[k].history, k, t, Term(b));
  }

  lemma BvalVoteIsOwn(net: Network, i: nat, k: nat, epoch: nat, b: bool)
    requires Authentic(net) && i in net && k in net && BvalVote(net[i].history, epoch, b, k)
    ensures BvalVote(net[k].history, epoch, b, k)
  {
    if TermBy(net[i].history, epoch, b, k) {
      TermIsOwn(net, i, k, epoch, b);
    }
  }

  lemma AuxVoteIsOwn(net: Network, i: nat, k: nat, epoch: nat, b: bool)
    requires Authentic(net) && i in net && k in net && AuxVote(net[i].history, epoch, b, k)
    ensures AuxVote(net[k].history, epoch, b, k)
  {
    if TermBy(net[i].history, epoch, b, k) {
      TermIsOwn(net, i, k, epoch, b);
    }
  }
}
