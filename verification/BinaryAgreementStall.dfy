/** Where Binary Agreement can get stuck, when all correct nodes are in one epoch and have handled
    everything: only in the `Conf` round of an epoch with a coin. */
module BinaryAgreementStall {
  import opened Options
  import opened Quorums
  import opened BoolMultimaps
  import opened BinaryAgreementSpec
  import opened BinaryAgreementHistory
  import opened BinaryAgreementNode
  import opened BinaryAgreementNetwork
  import opened BinaryAgreementRecords
  import opened BinaryAgreementProgress
  import opened BinaryAgreementSends
  import opened BinaryAgreementRounds
  import opened BinaryAgreementLiveness
  import Sbv = SbvSpec
  import SbvThresholds
  import Ts = ThresholdSignSpec

  function Correct(sys: System): set<nat> {
    set i | i in sys.correct && i < sys.n
  }

  /** Every correct validator is undecided in epoch `e`, and has an estimate. */
  ghost predicate InOneEpoch(sys: System, net: Network, e: nat) {
    && net.Keys == sys.correct
    && forall i :: i in Correct(sys) ==>
         net[i].state.decision.None? && net[i].state.epoch == e && net[i].state.estimated.Some?
  }

  /** All that correct validators have said in epoch `e` has been handled by all others. */
  ghost predicate AllHandled(sys: System, actions: seq<Action>, states: seq<Network>, net: Network, e: nat) {
    && net.Keys == sys.correct
    && forall i, j, c :: i in Correct(sys) && j in Correct(sys) && i != j && Said(net[j].history, j, e, c) ==>
         IsHandled(actions, states, i, j, Message(e, c))
  }

  /** The end of a run in which nothing more can happen in this epoch. */
  ghost predicate AtRest(sys: System, actions: seq<Action>, states: seq<Network>, net: Network, e: nat) {
    && sys.Valid() && IsRun(sys, actions, states, net)
    && NetworkInv(sys, net) && AllLive(sys, net)
    && InOneEpoch(sys, net, e) && AllHandled(sys, actions, states, net, e)
  }

  lemma EnoughCorrect(sys: System)
    requires sys.Valid()
    ensures |Correct(sys)| >= sys.n - MaxFaulty(sys.n) > 2 * MaxFaulty(sys.n)
    ensures Correct(sys) == Validators(sys.n) - sys.faulty
  {
    ValidatorsSize(sys.n);
    var rest := Validators(sys.n) - sys.faulty;
    assert Correct(sys) == rest by {
      forall i | i in Correct(sys) ensures i in rest {
        assert IsBelow(i, sys.n);
      }
    }
    SubsetSize(Validators(sys.n) * sys.faulty, sys.faulty);
    assert Validators(sys.n) == rest + Validators(sys.n) * sys.faulty;
  }

  // ----- What arrives -----

  /** What one correct validator has said, every other one has counted, or else something of the
      same kind that was said, too. */
  lemma Arrives(
    sys: System, actions: seq<Action>, states: seq<Network>, net: Network, e: nat, i: nat, j: nat, c: Content)
    returns (d: Content)
    requires AtRest(sys, actions, states, net, e) && i in Correct(sys) && j in Correct(sys) && i != j
    requires Said(net[j].history, j, e, c)
    ensures i in net && j in net && IsCounted(net[i].state, j, d)
    ensures d == c || (IsOther(c, d) && Said(net[j].history, j, e, d))
  {
    hide NetworkInv, AllLive, IsRun, IsCounted, IsHandled;
    d := NothingIsLost(sys, actions, states, net, i, j, Message(e, c));
    if d != c {
      SaidIsOwn(sys, net, i, j, e, d);
    }
  }

  lemma SaidIsOwn(sys: System, net: Network, i: nat, j: nat, e: nat, c: Content)
    requires NetworkInv(sys, net) && i in net && j in net && Said(net[i].history, j, e, c)
    ensures Said(net[j].history, j, e, c)
  {
    hide NodeInv, WellFormed, BvalsHaveOrigin, CoinsHaveOrigin;
  }

  /** What we may use about one node. */
  lemma NodeFacts(sys: System, actions: seq<Action>, states: seq<Network>, net: Network, e: nat, i: nat)
    requires AtRest(sys, actions, states, net, e) && i in Correct(sys)
    ensures sys.n > 0 && i in net && i < sys.n
    ensures var s := net[i].state; s.decision.None? && s.epoch == e && IsLive(sys.Config(i), s, [], None)
    ensures NodeInv(sys.Config(i), net[i].history, net[i].state) && Settled(sys.Config(i), net[i].state)
    ensures forall m :: NotesSent(sys.Config(i), net[i].state, m) ==> (i, m) in net[i].history.heard
  {
    hide NodeInv, IsLive, NotesSent, Settled, IsRun, AllHandled, Authentic, BvalsHaveOrigin, CoinsHaveOrigin;
    assert NodeLive(sys.Config(i), net[i].history, net[i].state);
  }

  // ----- Values that everyone believes in -----

  ghost function Senders(sys: System, net: Network, b: bool): set<nat> {
    set i | i in Correct(sys) && i in net && b in net[i].state.sbv.sentBval
  }

  lemma BvalArrives(
    sys: System, actions: seq<Action>, states: seq<Network>, net: Network, e: nat, i: nat, j: nat, b: bool)
    requires AtRest(sys, actions, states, net, e) && i in Correct(sys) && j in Senders(sys, net, b)
    ensures i in net && j in net[i].state.sbv.receivedBval.Get(b)
  {
    hide AtRest, IsLive, NodeInv, NotesSent, Settled;
    NodeFacts(sys, actions, states, net, e, i);
    if i == j {
      OwnBval(sys.Config(i), net[i].state, b);
    } else {
      BvalIsSaid(sys, actions, states, net, e, j, b);
      var d := Arrives(sys, actions, states, net, e, i, j, SbvBroadcast(Sbv.BVal(b)));
    }
  }

  lemma BvalIsSaid(sys: System, actions: seq<Action>, states: seq<Network>, net: Network, e: nat, j: nat, b: bool)
    requires AtRest(sys, actions, states, net, e) && j in Senders(sys, net, b)
    ensures j in Correct(sys) && j in net && Said(net[j].history, j, e, SbvBroadcast(Sbv.BVal(b)))
  {
    hide AtRest, IsLive, NodeInv, Settled;
    NodeFacts(sys, actions, states, net, e, j);
    assert NotesSent(sys.Config(j), net[j].state, Message(e, SbvBroadcast(Sbv.BVal(b))));
  }

  lemma OwnBval(cfg: Config, s: State, b: bool)
    requires IsLive(cfg, s, [], None) && cfg.net.IsValidator() && b in s.sbv.sentBval
    ensures cfg.net.ourId in s.sbv.receivedBval.Get(b)
  {
    assert SbvThresholds.BvalSent(cfg.net, s.sbv, b);
  }

  /** More than `f` correct senders make everyone send, and believe in, a value. */
  lemma AllBelieve(
    sys: System, actions: seq<Action>, states: seq<Network>, net: Network, e: nat, b: bool, i: nat)
    requires AtRest(sys, actions, states, net, e) && |Senders(sys, net, b)| > MaxFaulty(sys.n) && i in Correct(sys)
    ensures i in net && b in net[i].state.sbv.binValues
  {
    hide AtRest;
    EnoughCorrect(sys) by {
      assert AtRest(sys, actions, states, net, e);
      SystemOf(sys, actions, states, net, e);
    }
    forall j | j in Correct(sys) ensures j in Senders(sys, net, b) {
      EveryoneSends(sys, actions, states, net, e, b, j);
    }
    assert Senders(sys, net, b) == Correct(sys);
    NodeFacts(sys, actions, states, net, e, i);
    AllSendersCount(sys, actions, states, net, e, b, i);
    assert SbvThresholds.Counted(sys.Config(i).net, net[i].state.sbv);
  }

  lemma SystemOf(sys: System, actions: seq<Action>, states: seq<Network>, net: Network, e: nat)
    requires AtRest(sys, actions, states, net, e)
    ensures sys.Valid() && net.Keys == sys.correct
  {
  }

  lemma AllSendersCount(
    sys: System, actions: seq<Action>, states: seq<Network>, net: Network, e: nat, b: bool, i: nat)
    requires AtRest(sys, actions, states, net, e) && i in Correct(sys)
    ensures i in net && |net[i].state.sbv.receivedBval.Get(b)| >= |Senders(sys, net, b)|
  {
    hide AtRest;
    forall j | j in Senders(sys, net, b) ensures i in net && j in net[i].state.sbv.receivedBval.Get(b) {
      BvalArrives(sys, actions, states, net, e, i, j, b);
    }
    NodeFacts(sys, actions, states, net, e, i);
    SubsetSize(Senders(sys, net, b), net[i].state.sbv.receivedBval.Get(b));
  }

  lemma EveryoneSends(
    sys: System, actions: seq<Action>, states: seq<Network>, net: Network, e: nat, b: bool, i: nat)
    requires AtRest(sys, actions, states, net, e) && sys.n > 0
    requires |Senders(sys, net, b)| > MaxFaulty(sys.n) && i in Correct(sys)
    ensures i in Senders(sys, net, b)
  {
    hide AtRest;
    NodeFacts(sys, actions, states, net, e, i);
    AllSendersCount(sys, actions, states, net, e, b, i);
    assert SbvThresholds.BvalSent(sys.Config(i).net, net[i].state.sbv, b);
  }

  /** Some value is believed in by everyone. */
  lemma SomethingIsBelieved(sys: System, actions: seq<Action>, states: seq<Network>, net: Network, e: nat)
    returns (b: bool)
    requires AtRest(sys, actions, states, net, e)
    ensures forall i :: i in Correct(sys) ==> i in net && b in net[i].state.sbv.binValues
  {
    hide AtRest;
    SystemOf(sys, actions, states, net, e);
    EnoughCorrect(sys);
    var yes, no := Senders(sys, net, true), Senders(sys, net, false);
    forall i | i in Correct(sys) ensures i in yes + no {
      EstimateIsSent(sys, actions, states, net, e, i);
    }
    SubsetSize(Correct(sys), yes + no);
    assert |yes + no| <= |yes| + |no|;
    b := |yes| > MaxFaulty(sys.n);
    forall i | i in Correct(sys) ensures i in net && b in net[i].state.sbv.binValues {
      AllBelieve(sys, actions, states, net, e, b, i);
    }
  }

  lemma EstimateIsSent(sys: System, actions: seq<Action>, states: seq<Network>, net: Network, e: nat, i: nat)
    requires AtRest(sys, actions, states, net, e) && i in Correct(sys)
    ensures i in Senders(sys, net, true) + Senders(sys, net, false)
  {
    NodeFacts(sys, actions, states, net, e, i);
    var b := net[i].state.estimated.value;
    assert b in net[i].state.sbv.sentBval;
    assert i in if b then Senders(sys, net, true) else Senders(sys, net, false);
  }

  /** What has a certificate at one node is believed in by everyone. */
  lemma BeliefSpreads(
    sys: System, actions: seq<Action>, states: seq<Network>, net: Network, e: nat, b: bool, j: nat, i: nat)
    requires AtRest(sys, actions, states, net, e) && i in Correct(sys) && j in Correct(sys)
    requires sys.n > 0 && j in net && Believed(sys.Config(j), net[j].history, e, b)
    ensures i in net && b in net[i].state.sbv.binValues
  {
    hide AtRest, BvalVoters, Senders;
    SystemOf(sys, actions, states, net, e);
    var voters := BvalVoters(sys.Config(j), net[j].history, e, b);
    forall k | k in voters - sys.faulty ensures k in Senders(sys, net, b) {
      VoterIsSender(sys, actions, states, net, e, b, j, k);
    }
    SubsetSize(voters - sys.faulty, Senders(sys, net, b));
    WithoutFaulty(voters, sys.faulty);
    AllBelieve(sys, actions, states, net, e, b, i);
  }

  lemma WithoutFaulty(a: set<nat>, faulty: set<nat>)
    ensures |a| <= |a - faulty| + |faulty|
  {
    SubsetSize(a, (a - faulty) + faulty);
  }

  lemma VoterIsSender(
    sys: System, actions: seq<Action>, states: seq<Network>, net: Network, e: nat, b: bool, j: nat, k: nat)
    requires AtRest(sys, actions, states, net, e) && j in Correct(sys) && j in net && sys.n > 0
    requires k in BvalVoters(sys.Config(j), net[j].history, e, b) && k !in sys.faulty
    ensures k in Senders(sys, net, b)
  {
    assert k in Correct(sys) by {
      EnoughCorrect(sys);
      assert IsBelow(k, sys.n);
    }
    NodeFacts(sys, actions, states, net, e, k);
    OwnVote(sys, net, j, k, e, b);
    var h := net[k].history;
    NoTerm(sys.Config(k), h, net[k].state, e, b);
    assert SbvInv(sys.Config(k), h, e, net[k].state.sbv);
  }

  lemma OwnVote(sys: System, net: Network, j: nat, k: nat, e: nat, b: bool)
    requires NetworkInv(sys, net) && j in net && k in net && BvalVote(net[j].history, e, b, k)
    ensures BvalVote(net[k].history, e, b, k)
  {
    hide NodeInv, WellFormed, BvalsHaveOrigin, CoinsHaveOrigin, BvalVote;
    BvalVoteIsOwn(net, j, k, e, b);
  }

  lemma NoTerm(cfg: Config, h: History, s: State, e: nat, b: bool)
    requires NodeInv(cfg, h, s) && s.decision.None?
    ensures !TermBy(h, e, b, cfg.net.ourId)
  {
    hide SbvInv, StateInv, OwnCoin;
  }

  // ----- The broadcast ends -----

  /** The value for which a node has sent `Aux`. */
  lemma AuxOf(sys: System, actions: seq<Action>, states: seq<Network>, net: Network, e: nat, i: nat)
    returns (b: bool)
    requires AtRest(sys, actions, states, net, e) && i in Correct(sys)
    ensures i in net && sys.n > 0 && Said(net[i].history, i, e, SbvBroadcast(Sbv.Aux(b)))
    ensures Believed(sys.Config(i), net[i].history, e, b) && i in net[i].state.sbv.receivedAux.Get(b)
  {
    var v := SomethingIsBelieved(sys, actions, states, net, e);
    NodeFacts(sys, actions, states, net, e, i);
    var cfg, s, h := sys.Config(i), net[i].state, net[i].history;
    assert SbvThresholds.AuxSent(cfg.net, s.sbv);
    b :| i in s.sbv.receivedAux.Get(b);
    var m := Message(e, SbvBroadcast(Sbv.Aux(b)));
    assert NotesSent(cfg, s, m);
    assert SbvInv(cfg, h, e, s.sbv);
  }

  lemma AuxCounts(
    sys: System, actions: seq<Action>, states: seq<Network>, net: Network, e: nat, i: nat, j: nat)
    requires AtRest(sys, actions, states, net, e) && i in Correct(sys) && j in Correct(sys)
    ensures i in net && exists b :: b in net[i].state.sbv.binValues && j in net[i].state.sbv.receivedAux.Get(b)
  {
    hide AtRest, NetworkInv;
    var b := AuxOf(sys, actions, states, net, e, j);
    BeliefSpreads(sys, actions, states, net, e, b, j, i);
    if i != j {
      var d := Arrives(sys, actions, states, net, e, i, j, SbvBroadcast(Sbv.Aux(b)));
    }
    assert b in net[i].state.sbv.binValues && j in net[i].state.sbv.receivedAux.Get(b);
  }

  lemma CandidatesExist(sys: System, actions: seq<Action>, states: seq<Network>, net: Network, e: nat, i: nat)
    requires AtRest(sys, actions, states, net, e) && i in Correct(sys)
    ensures i in net && net[i].state.confValues.Some?
  {
    hide AtRest;
    SystemOf(sys, actions, states, net, e);
    EnoughCorrect(sys);
    var _ := SomethingIsBelieved(sys, actions, states, net, e);
    NodeFacts(sys, actions, states, net, e, i);
    var sbv := net[i].state.sbv;
    var yes, no := if true in sbv.binValues then sbv.receivedAux.yes else {},
                   if false in sbv.binValues then sbv.receivedAux.no else {};
    forall j | j in Correct(sys) ensures j in yes + no {
      AuxCounts(sys, actions, states, net, e, i, j);
      var b :| b in sbv.binValues && j in sbv.receivedAux.Get(b);
    }
    SubsetSize(Correct(sys), yes + no);
    assert |yes + no| <= |yes| + |no| == Sbv.CountAux(sbv);
    assert SbvThresholds.Counted(sys.Config(i).net, sbv);
  }

  /** So this is an epoch with a coin, which is still open. */
  lemma CoinIsOpen(sys: System, actions: seq<Action>, states: seq<Network>, net: Network, e: nat, i: nat)
    requires AtRest(sys, actions, states, net, e) && i in Correct(sys)
    ensures i in net && net[i].state.coinState.InProgress? && e % 3 == 2
  {
    hide AtRest, NodeInv, NotesSent, IsLive;
    CandidatesExist(sys, actions, states, net, e, i);
    NodeFacts(sys, actions, states, net, e, i);
  }

  // ----- The `Conf` round -----

  /** What a correct node is recorded to have confirmed is believed in by everyone. */
  lemma ConfIsBelieved(
    sys: System, actions: seq<Action>, states: seq<Network>, net: Network, e: nat, i: nat, j: nat)
    requires AtRest(sys, actions, states, net, e) && i in Correct(sys) && j in Correct(sys)
    requires i in net && j in net[i].state.receivedConf
    ensures net[i].state.receivedConf[j] <= net[i].state.sbv.binValues
  {
    hide AtRest, NetworkInv;
    var vals := net[i].state.receivedConf[j];
    NodeFacts(sys, actions, states, net, e, i);
    NodeFacts(sys, actions, states, net, e, j);
    forall b | b in vals ensures b in net[i].state.sbv.binValues {
      ConfirmedIsCertified(sys, actions, states, net, e, i, j, b);
      BeliefSpreads(sys, actions, states, net, e, b, j, i);
    }
  }

  lemma ConfirmedIsCertified(
    sys: System, actions: seq<Action>, states: seq<Network>, net: Network, e: nat, i: nat, j: nat, b: bool)
    requires AtRest(sys, actions, states, net, e) && i in Correct(sys) && j in Correct(sys)
    requires i in net && j in net[i].state.receivedConf && b in net[i].state.receivedConf[j]
    ensures sys.n > 0 && j in net && Believed(sys.Config(j), net[j].history, e, b)
  {
    var vals := net[i].state.receivedConf[j];
    NodeFacts(sys, actions, states, net, e, i);
    NodeFacts(sys, actions, states, net, e, j);
    var h := net[j].history;
    assert Confirmed(net[i].history, e, vals, j) by {
      assert StateInv(sys.Config(i), net[i].history, net[i].state);
    }
    hide NodeInv, NetworkInv, IsLive, NotesSent, Settled;
    if Said(net[i].history, j, e, Conf(vals)) {
      SaidIsOwn(sys, net, i, j, e, Conf(vals));
      SaidIsBelieved(sys.Config(j), h, net[j].state, e, vals, b);
    } else {
      var v :| vals == {v} && TermBy(net[i].history, e, v, j);
      NoTerm(sys.Config(j), h, net[j].state, e, v);
      TermsAreOwn(sys, net, i, j, e, v);
    }
  }

  lemma SaidIsBelieved(cfg: Config, h: History, s: State, e: nat, vals: set<bool>, b: bool)
    requires NodeInv(cfg, h, s) && Said(h, cfg.net.ourId, e, Conf(vals)) && b in vals
    ensures Believed(cfg, h, e, b)
  {
    hide SbvInv, StateInv, OwnTerm, Believed;
  }

  lemma TermsAreOwn(sys: System, net: Network, i: nat, j: nat, e: nat, b: bool)
    requires NetworkInv(sys, net) && i in net && j in net && TermBy(net[i].history, e, b, j)
    ensures TermBy(net[j].history, e, b, j)
  {
    hide NodeInv, WellFormed, BvalsHaveOrigin, CoinsHaveOrigin, TermBy;
    TermIsOwn(net, i, j, e, b);
  }

  lemma ConfArrives(
    sys: System, actions: seq<Action>, states: seq<Network>, net: Network, e: nat, i: nat, j: nat)
    requires AtRest(sys, actions, states, net, e) && i in Correct(sys) && j in Correct(sys)
    ensures i in net && j in net[i].state.receivedConf
  {
    hide AtRest, NodeInv, NotesSent, Settled;
    CoinIsOpen(sys, actions, states, net, e, j);
    CandidatesExist(sys, actions, states, net, e, j);
    NodeFacts(sys, actions, states, net, e, j);
    if i != j {
      hide IsLive;
      ConfIsSaid(sys, actions, states, net, e, j);
      var d := Arrives(sys, actions, states, net, e, i, j, Conf(net[j].state.confValues.value));
      assert d.Conf?;
    }
  }

  lemma ConfIsSaid(sys: System, actions: seq<Action>, states: seq<Network>, net: Network, e: nat, j: nat)
    requires AtRest(sys, actions, states, net, e) && j in Correct(sys)
    ensures j in net && net[j].state.confValues.Some?
    ensures Said(net[j].history, j, e, Conf(net[j].state.confValues.value))
  {
    hide AtRest, IsLive, NodeInv, Settled;
    CoinIsOpen(sys, actions, states, net, e, j);
    CandidatesExist(sys, actions, states, net, e, j);
    NodeFacts(sys, actions, states, net, e, j);
    assert NotesSent(sys.Config(j), net[j].state, Message(e, Conf(net[j].state.confValues.value)));
  }

  /** The `Conf` round is complete. */
  lemma RoundIsComplete(sys: System, actions: seq<Action>, states: seq<Network>, net: Network, e: nat, i: nat)
    requires AtRest(sys, actions, states, net, e) && i in Correct(sys)
    ensures i in net && sys.n > 0
    ensures |Confirmers(net[i].state.receivedConf, net[i].state.sbv.binValues)| >= sys.n - MaxFaulty(sys.n)
  {
    hide AtRest;
    SystemOf(sys, actions, states, net, e);
    EnoughCorrect(sys);
    NodeFacts(sys, actions, states, net, e, i);
    hide NodeInv, IsLive, NotesSent, Settled;
    var s := net[i].state;
    forall j | j in Correct(sys) ensures j in Confirmers(s.receivedConf, s.sbv.binValues) {
      ConfArrives(sys, actions, states, net, e, i, j);
      ConfIsBelieved(sys, actions, states, net, e, i, j);
    }
    SubsetSize(Correct(sys), Confirmers(s.receivedConf, s.sbv.binValues));
  }

  lemma ShareArrives(
    sys: System, actions: seq<Action>, states: seq<Network>, net: Network, e: nat, i: nat, j: nat)
    requires AtRest(sys, actions, states, net, e) && i in Correct(sys) && j in Correct(sys)
    requires j in net && HasReleased(net[j].state.coinState)
    ensures i in net && net[i].state.coinState.InProgress? && j in net[i].state.coinState.ts.receivedShares
  {
    CoinIsOpen(sys, actions, states, net, e, i);
    CoinIsOpen(sys, actions, states, net, e, j);
    NodeFacts(sys, actions, states, net, e, i);
    NodeFacts(sys, actions, states, net, e, j);
    if i != j {
      var m := Message(e, Coin(Ts.Share(j, e)));
      assert NotesSent(sys.Config(j), net[j].state, m);
      var d := ShareIsCounted(sys, actions, states, net, e, i, j);
      assert net[i].state.epoch == e;
    }
  }

  lemma ShareIsCounted(
    sys: System, actions: seq<Action>, states: seq<Network>, net: Network, e: nat, i: nat, j: nat)
    returns (d: Content)
    requires AtRest(sys, actions, states, net, e) && i in Correct(sys) && j in Correct(sys) && i != j
    requires j in net && Said(net[j].history, j, e, Coin(Ts.Share(j, e)))
    ensures i in net && d == Coin(Ts.Share(j, e)) && IsCounted(net[i].state, j, d)
  {
    hide AtRest, IsCounted;
    d := Arrives(sys, actions, states, net, e, i, j, Coin(Ts.Share(j, e)));
    NodeFacts(sys, actions, states, net, e, j);
    hide NodeInv;
    OwnShare(sys.Config(j), net[j].history, net[j].state, e, d.share);
  }

  lemma OwnShare(cfg: Config, h: History, s: State, e: nat, share: Ts.Share)
    requires NodeInv(cfg, h, s) && Said(h, cfg.net.ourId, e, Coin(share))
    ensures share == Ts.Share(cfg.net.ourId, e)
  {
    hide SbvInv, StateInv, OwnTerm, CoinJustified, OwnConf;
  }

  /** A node that has `N - f` confirmations of values that it believes in, and has not released its
      share of the coin. It did not look again when it came to believe in a value. */
  ghost predicate MissesRound(cfg: Config, s: State) {
    && s.confValues.Some? && s.coinState.InProgress? && !s.coinState.ts.hadInput
    && |Confirmers(s.receivedConf, s.sbv.binValues)| >= cfg.net.n - MaxFaulty(cfg.net.n)
  }

  /** In every run after which all correct validators are undecided in the same epoch, and have
      handled all that they have said in it: the epoch has a coin, and some of them miss the
      `Conf` round. In all other epochs they would have gone on. */
  lemma StuckOnlyInConfRound(
    sys: System, actions: seq<Action>, states: seq<Network>, net: Network, e: nat) returns (i: nat)
    requires sys.Valid() && IsRun(sys, actions, states, net)
    requires InOneEpoch(sys, net, e) && AllHandled(sys, actions, states, net, e)
    ensures e % 3 == 2
    ensures i in Correct(sys) && i in net && MissesRound(sys.Config(i), net[i].state)
  {
    hide IsRun, InOneEpoch, AllHandled, NetworkInv, AllLive;
    assert Reaches(sys, actions, net);
    RunInv(sys, actions, net);
    RunLive(sys, actions, net);
    assert AtRest(sys, actions, states, net, e);
    hide AtRest;
    i := SomeoneIsSilent(sys, actions, states, net, e);
    CoinIsOpen(sys, actions, states, net, e, i);
    CandidatesExist(sys, actions, states, net, e, i);
    RoundIsComplete(sys, actions, states, net, e, i);
  }

  lemma SomeoneIsSilent(sys: System, actions: seq<Action>, states: seq<Network>, net: Network, e: nat)
    returns (i: nat)
    requires AtRest(sys, actions, states, net, e)
    ensures i in Correct(sys) && i in net && !HasReleased(net[i].state.coinState)
  {
    hide AtRest;
    SystemOf(sys, actions, states, net, e);
    EnoughCorrect(sys);
    if forall j :: j in Correct(sys) ==> HasReleased(net[j].state.coinState) {
      var k :| k in Correct(sys);
      forall j | j in Correct(sys)
        ensures net[k].state.coinState.InProgress? && j in net[k].state.coinState.ts.receivedShares
      {
        ShareArrives(sys, actions, states, net, e, k, j);
      }
      NodeFacts(sys, actions, states, net, e, k);
      var shares := net[k].state.coinState.ts.receivedShares;
      assert |shares.Keys| == |shares|;
      SubsetSize(Correct(sys), shares.Keys);
      assert false;
    }
    i :| i in Correct(sys) && !HasReleased(net[i].state.coinState);
  }
}
