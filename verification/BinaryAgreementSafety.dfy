/** Agreement, validity and the coin gate, for every run of Binary Agreement. */
module BinaryAgreementSafety {
  import opened Options
  import opened Quorums
  import opened BoolMultimaps
  import opened BinaryAgreementSpec
  import opened BinaryAgreementHistory
  import opened BinaryAgreementNode
  import opened BinaryAgreementNetwork
  import Sbv = SbvSpec
  import Ts = ThresholdSignSpec

  // ----- Synchronized BV Broadcast -----

  /** A correct validator casts one vote per epoch: an `Aux`, or an earlier `Term`. */
  lemma OneAuxVote(sys: System, net: Network, k: nat, epoch: nat, v: bool, w: bool)
    requires NetworkInv(sys, net) && k in net
    requires AuxVote(net[k].history, epoch, v, k) && AuxVote(net[k].history, epoch, w, k)
    ensures v == w
  {
    hide StateInv, OwnCoin, BvalJustified, Believed, Settled, Authentic, BvalsHaveOrigin, CoinsHaveOrigin;
    var h := net[k].history;
    var s := net[k].state;
    assert NodeInv(sys.Config(k), h, s);
    assert forall b :: TermBy(h, epoch, b, k) ==> s.epoch < epoch && s.decision == Some(b);
    assert forall b :: Said(h, k, epoch, SbvBroadcast(Sbv.Aux(b))) ==> epoch <= s.epoch;
    assert !(Said(h, k, epoch, SbvBroadcast(Sbv.Aux(false))) && Said(h, k, epoch, SbvBroadcast(Sbv.Aux(true))));
  }

  /** If two correct nodes output singletons in the same epoch, they are equal. */
  lemma SingletonAgreement(sys: System, net: Network, i: nat, j: nat, epoch: nat, v: bool, w: bool)
    requires NetworkInv(sys, net) && i in net && j in net
    requires OutputCert(sys.Config(i), net[i].history, epoch, {v})
    requires OutputCert(sys.Config(j), net[j].history, epoch, {w})
    ensures v == w
  {
    hide NodeInv, BvalsHaveOrigin, CoinsHaveOrigin, Settled;
    var a := AuxVoters(sys.Config(i), net[i].history, epoch, v);
    var b := AuxVoters(sys.Config(j), net[j].history, epoch, w);
    assert a <= Validators(sys.n) && b <= Validators(sys.n);
    var k := QuorumsIntersect(sys.n, a, b, sys.faulty);
    assert k in Validators(sys.n);
    AuxVoteIsOwn(net, i, k, epoch, v);
    AuxVoteIsOwn(net, j, k, epoch, w);
    OneAuxVote(sys, net, k, epoch, v, w);
  }

  /** What stays of an earlier state of the same run. */
  lemma CertsStay(sys: System, actions: seq<Action>, states: seq<Network>, net: Network, a: nat, b: nat, i: nat)
    requires sys.Valid() && IsRun(sys, actions, states, net) && a <= b <= |actions| && i in states[a]
    ensures NetworkInv(sys, states[a]) && NetworkInv(sys, states[b]) && i in states[b]
    ensures forall e: nat, v :: OutputCert(sys.Config(i), states[a][i].history, e, v) ==>
                                  OutputCert(sys.Config(i), states[b][i].history, e, v)
  {
    hide NetworkInv, IsStep, Initial, OutputCert, Extends;
    PrefixInv(sys, actions, states, net, a);
    PrefixInv(sys, actions, states, net, b);
    RunGrows(sys, actions, states, net, a, b);
    CertsGrow(sys.Config(i), states[a][i].history, states[b][i].history);
  }

  /** In every run: when two correct nodes, at any two times, have singletons of candidate
      values for the same epoch, these are equal. */
  lemma CandidatesAgree(
    sys: System, actions: seq<Action>, states: seq<Network>, net: Network,
    a: nat, b: nat, i: nat, j: nat, v: bool, w: bool)
    requires sys.Valid() && IsRun(sys, actions, states, net) && a <= b <= |actions|
    requires i in states[a] && j in states[b] && states[a][i].state.epoch == states[b][j].state.epoch
    requires states[a][i].state.confValues == Some({v}) && states[b][j].state.confValues == Some({w})
    ensures v == w
  {
    hide IsStep, Initial, NetworkInv, OutputCert;
    CertsStay(sys, actions, states, net, a, b, i);
    CandidatesCert(sys, states[a], i, v);
    CandidatesCert(sys, states[b], j, w);
    SingletonAgreement(sys, states[b], i, j, states[a][i].state.epoch, v, w);
  }

  lemma CandidatesCert(sys: System, net: Network, i: nat, v: bool)
    requires NetworkInv(sys, net) && i in net && net[i].state.confValues == Some({v})
    ensures OutputCert(sys.Config(i), net[i].history, net[i].state.epoch, {v})
  {
    hide SbvInv, OwnTerm, OwnCoin, BvalsHaveOrigin, CoinsHaveOrigin, Authentic, OutputCert;
    assert NodeInv(sys.Config(i), net[i].history, net[i].state);
    assert StateInv(sys.Config(i), net[i].history, net[i].state);
  }

  // ----- Where decisions and beliefs come from -----

  /** Node `k` may decide `b` in `epoch` because the coin agrees with its only output. */
  ghost predicate CoinDecides(sys: System, net: Network, k: nat, epoch: nat, b: bool)
    requires sys.n > 0
  {
    && k in net
    && CoinValue(sys.Config(k), epoch) == b
    && OutputCert(sys.Config(k), net[k].history, epoch, {b})
  }

  /** Every decision goes back to one by the coin, also if it was made on `Term`s. */
  lemma {:induction false} DecisionTrace(sys: System, net: Network, i: nat) returns (k: nat, epoch: nat)
    requires NetworkInv(sys, net) && i in net && net[i].state.decision.Some?
    ensures k in net && CoinDecides(sys, net, k, epoch, net[i].state.decision.value)
    ensures epoch <= net[i].state.epoch
    decreases net[i].state.epoch
  {
    hide SbvInv, OwnTerm, OwnCoin;
    var cfg := sys.Config(i);
    var h := net[i].history;
    var s := net[i].state;
    var b := s.decision.value;
    assert NodeInv(cfg, h, s) && DecisionCert(cfg, h, s.epoch, b);
    if CoinValue(cfg, s.epoch) == b && OutputCert(cfg, h, s.epoch, {b}) {
      k, epoch := i, s.epoch;
    } else {
      var j := CorrectVoter(sys, net, TermVoters(cfg, h, s.epoch, b) - {i});
      TermIsOwn(net, i, j, s.epoch, b);
      TermIsDecision(sys, net, j, s.epoch, b);
      k, epoch := DecisionTrace(sys, net, j);
    }
  }

  lemma TermIsDecision(sys: System, net: Network, k: nat, epoch: nat, b: bool)
    requires NetworkInv(sys, net) && k in net && TermBy(net[k].history, epoch, b, k)
    ensures net[k].state.decision == Some(b) && net[k].state.epoch < epoch
  {
    hide SbvInv, StateInv, OwnCoin;
    assert NodeInv(sys.Config(k), net[k].history, net[k].state);
  }

  lemma OriginOf(sys: System, net: Network, i: nat, epoch: nat, b: bool) returns (k: nat)
    requires NetworkInv(sys, net) && i in net
    requires Said(net[i].history, i, epoch, SbvBroadcast(Sbv.BVal(b)))
    ensures k in net && (CanEnter(sys.Config(k), net[k].history, epoch, b) || TermBy(net[k].history, epoch, b, k))
  {
    hide NodeInv, CoinsHaveOrigin, Authentic, Settled, CanEnter;
    assert BvalsHaveOrigin(sys, net);
    assert HasOrigin(sys, net, epoch, b);
    k :| k in net && IsOrigin(sys, net[k].history, k, epoch, b);
  }

  /** A value believed by a correct node was decided by the coin earlier, or it is
      the estimate with which some correct node started this epoch. */
  lemma BeliefTrace(sys: System, net: Network, i: nat, epoch: nat, b: bool) returns (k: nat, d: nat)
    requires NetworkInv(sys, net) && i in net
    requires Believed(sys.Config(i), net[i].history, epoch, b)
    ensures k in net
    ensures || (d < epoch && CoinDecides(sys, net, k, d, b))
            || (d == epoch && CanEnter(sys.Config(k), net[k].history, epoch, b))
  {
    hide NodeInv, BvalsHaveOrigin, CoinsHaveOrigin, Settled, CanEnter, CoinDecides;
    var j := CorrectVoter(sys, net, BvalVoters(sys.Config(i), net[i].history, epoch, b));
    BvalVoteIsOwn(net, i, j, epoch, b);
    if !TermBy(net[j].history, epoch, b, j) {
      j := OriginOf(sys, net, j, epoch, b);
    }
    if TermBy(net[j].history, epoch, b, j) {
      TermIsDecision(sys, net, j, epoch, b);
      k, d := DecisionTrace(sys, net, j);
    } else {
      k, d := j, epoch;
    }
  }

  /** A node enters an epoch with an estimate that it believed in the one before. */
  lemma EstimateBelieved(cfg: Config, h: History, epoch: nat, vals: set<bool>, b: bool)
    requires Enters(cfg, h, epoch, vals, b)
    ensures b in vals && Believed(cfg, h, epoch - 1, b)
  {
    if b !in vals {
      OnlyOther(vals, b);
      assert false;
    }
  }

  // ----- Agreement -----

  /** The first decision by the coin. */
  ghost predicate FirstDecision(sys: System, net: Network, k: nat, epoch: nat, b: bool)
    requires sys.n > 0
  {
    && CoinDecides(sys, net, k, epoch, b)
    && forall j, e: nat, v :: CoinDecides(sys, net, j, e, v) ==> epoch <= e
  }

  lemma {:induction false} FindFirstDecision(sys: System, net: Network, k: nat, epoch: nat, b: bool)
    returns (k0: nat, epoch0: nat, b0: bool)
    requires sys.n > 0 && CoinDecides(sys, net, k, epoch, b)
    ensures FirstDecision(sys, net, k0, epoch0, b0)
    decreases epoch
  {
    if j, e: nat, v :| CoinDecides(sys, net, j, e, v) && e < epoch {
      k0, epoch0, b0 := FindFirstDecision(sys, net, j, e, v);
    } else {
      k0, epoch0, b0 := k, epoch, b;
    }
  }

  /** After the first decision for `b`, no correct node ever believes in `!b`. */
  lemma {:induction false} NotBelievedAfter(
    sys: System, net: Network, k0: nat, epoch0: nat, b: bool, i: nat, epoch: nat)
    requires NetworkInv(sys, net) && i in net && epoch > epoch0
    requires FirstDecision(sys, net, k0, epoch0, b)
    ensures !Believed(sys.Config(i), net[i].history, epoch, !b)
    decreases epoch
  {
    hide NetworkInv, Believed;
    if Believed(sys.Config(i), net[i].history, epoch, !b) {
      var k, d := BeliefTrace(sys, net, i, epoch, !b);
      if d < epoch {
        if d > epoch0 {
          NotBelievedAfter(sys, net, k0, epoch0, b, k, d);
        }
        assert false;
      }
      var cfg := sys.Config(k);
      var vals: set<bool> :| Enters(cfg, net[k].history, epoch, vals, !b);
      EstimateBelieved(cfg, net[k].history, epoch, vals, !b);
      if epoch - 1 > epoch0 {
        NotBelievedAfter(sys, net, k0, epoch0, b, k, epoch - 1);
      } else if vals == {!b} {
        SingletonAgreement(sys, net, k0, k, epoch0, b, !b);
      }
      assert false;
    }
  }

  /** All decisions by the coin are for the value of the first one. */
  lemma DecidesFirstValue(sys: System, net: Network, k0: nat, epoch0: nat, b: bool, k: nat, epoch: nat, v: bool)
    requires NetworkInv(sys, net) && FirstDecision(sys, net, k0, epoch0, b) && CoinDecides(sys, net, k, epoch, v)
    ensures v == b
  {
    hide NetworkInv, Believed;
    if v != b {
      if epoch > epoch0 {
        NotBelievedAfter(sys, net, k0, epoch0, b, k, epoch);
      }
      assert false;
    }
  }

  /** Safety: in every run, no two correct nodes decide differently, at any two times. */
  lemma Agreement(
    sys: System, actions: seq<Action>, states: seq<Network>, net: Network, a: nat, b: nat, i: nat, j: nat)
    requires sys.Valid() && IsRun(sys, actions, states, net) && a <= b <= |actions|
    requires i in states[a] && j in states[b]
    requires states[a][i].state.decision.Some? && states[b][j].state.decision.Some?
    ensures states[a][i].state.decision == states[b][j].state.decision
  {
    hide IsStep, Initial, NetworkInv, OutputCert;
    CertsStay(sys, actions, states, net, a, b, i);
    var k, d := DecisionTrace(sys, states[a], i);
    CertsStay(sys, actions, states, net, a, b, k);
    var v := states[a][i].state.decision.value;
    assert CoinDecides(sys, states[b], k, d, v);
    var l, e := DecisionTrace(sys, states[b], j);
    var k0, e0, b0 := FindFirstDecision(sys, states[b], k, d, v);
    DecidesFirstValue(sys, states[b], k0, e0, b0, k, d, v);
    DecidesFirstValue(sys, states[b], k0, e0, b0, l, e, states[b][j].state.decision.value);
  }

  // ----- Validity -----

  ghost predicate NobodyProposed(net: Network, b: bool) {
    forall i :: i in net ==> b !in net[i].history.proposed
  }

  lemma {:induction false} NeverBelieved(sys: System, net: Network, b: bool, i: nat, epoch: nat)
    requires sys.n > 0 && NetworkInv(sys, net) && NobodyProposed(net, b) && i in net
    ensures !Believed(sys.Config(i), net[i].history, epoch, b)
    decreases epoch, 1
  {
    hide NetworkInv, Believed, CanEnter;
    if Believed(sys.Config(i), net[i].history, epoch, b) {
      var k, d := BeliefTrace(sys, net, i, epoch, b);
      if d < epoch {
        NeverBelieved(sys, net, b, k, d);
      } else {
        NeverEntered(sys, net, b, k, epoch);
      }
      assert false;
    }
  }

  lemma NeverEntered(sys: System, net: Network, b: bool, k: nat, epoch: nat)
    requires sys.n > 0 && NetworkInv(sys, net) && NobodyProposed(net, b) && k in net
    ensures !CanEnter(sys.Config(k), net[k].history, epoch, b)
    decreases epoch, 0
  {
    hide NetworkInv, Believed;
    var cfg := sys.Config(k);
    if epoch > 0 && CanEnter(cfg, net[k].history, epoch, b) {
      var vals: set<bool> :| Enters(cfg, net[k].history, epoch, vals, b);
      EstimateBelieved(cfg, net[k].history, epoch, vals, b);
      NeverBelieved(sys, net, b, k, epoch - 1);
      assert false;
    }
  }

  /** Nobody proposes `b`, so no correct node believes in it, sends it, estimates it
      or decides it. */
  ghost predicate Absent(n: Node, i: nat, b: bool) {
    && b !in n.state.sbv.binValues
    && n.state.estimated != Some(b)
    && n.state.decision != Some(b)
    && forall e: nat ::
         && !Said(n.history, i, e, SbvBroadcast(Sbv.BVal(b)))
         && !Said(n.history, i, e, SbvBroadcast(Sbv.Aux(b)))
         && !Said(n.history, i, e, Term(b))
  }

  /** Validity: a value that no correct node proposes is absent from every correct node. */
  lemma Validity(sys: System, actions: seq<Action>, net: Network, i: nat, b: bool)
    requires sys.Valid() && Reaches(sys, actions, net) && i in net
    requires NobodyProposed(net, b)
    ensures Absent(net[i], i, b)
  {
    hide Reaches, NetworkInv;
    RunInv(sys, actions, net);
    NeverInState(sys, net, b, i);
    NeverDecided(sys, net, b, i);
    forall e: nat
      ensures !Said(net[i].history, i, e, SbvBroadcast(Sbv.BVal(b)))
      ensures !Said(net[i].history, i, e, SbvBroadcast(Sbv.Aux(b)))
      ensures !Said(net[i].history, i, e, Term(b))
    {
      NeverSentBval(sys, net, b, i, e);
      NeverSentAux(sys, net, b, i, e);
      NeverSentTerm(sys, net, b, i, e);
    }
  }

  lemma NeverInState(sys: System, net: Network, b: bool, i: nat)
    requires NetworkInv(sys, net) && NobodyProposed(net, b) && i in net
    ensures b !in net[i].state.sbv.binValues && net[i].state.estimated != Some(b)
  {
    hide OwnTerm, OwnCoin, BvalJustified, OutputCert, DecisionCert, CanEnter, BvalsHaveOrigin, CoinsHaveOrigin;
    hide Authentic, Settled;
    var cfg := sys.Config(i);
    var h := net[i].history;
    var s := net[i].state;
    assert NodeInv(cfg, h, s);
    NeverBelieved(sys, net, b, i, s.epoch);
    NeverEntered(sys, net, b, i, s.epoch);
    if b in s.sbv.binValues {
      SubsetSize(s.sbv.receivedBval.Get(b), BvalVoters(cfg, h, s.epoch, b));
      assert false;
    }
  }

  lemma NeverSentAux(sys: System, net: Network, b: bool, i: nat, epoch: nat)
    requires NetworkInv(sys, net) && NobodyProposed(net, b) && i in net
    ensures !Said(net[i].history, i, epoch, SbvBroadcast(Sbv.Aux(b)))
  {
    hide StateInv, OwnTerm, OwnCoin, BvalJustified, Believed, BvalsHaveOrigin, CoinsHaveOrigin, Authentic, Settled;
    assert NodeInv(sys.Config(i), net[i].history, net[i].state);
    NeverBelieved(sys, net, b, i, epoch);
  }

  lemma NeverSentTerm(sys: System, net: Network, b: bool, i: nat, epoch: nat)
    requires NetworkInv(sys, net) && NobodyProposed(net, b) && i in net
    ensures !Said(net[i].history, i, epoch, Term(b))
  {
    hide NetworkInv;
    if Said(net[i].history, i, epoch, Term(b)) {
      TermIsDecision(sys, net, i, epoch, b);
      NeverDecided(sys, net, b, i);
      assert false;
    }
  }

  lemma NeverDecided(sys: System, net: Network, b: bool, i: nat)
    requires NetworkInv(sys, net) && NobodyProposed(net, b) && i in net
    ensures net[i].state.decision != Some(b)
  {
    hide NetworkInv;
    if net[i].state.decision == Some(b) {
      var k, d := DecisionTrace(sys, net, i);
      NeverBelieved(sys, net, b, k, d);
      assert false;
    }
  }

  lemma NeverSentBval(sys: System, net: Network, b: bool, i: nat, epoch: nat)
    requires NetworkInv(sys, net) && NobodyProposed(net, b) && i in net
    ensures !Said(net[i].history, i, epoch, SbvBroadcast(Sbv.BVal(b)))
  {
    hide NetworkInv, CanEnter;
    if Said(net[i].history, i, epoch, SbvBroadcast(Sbv.BVal(b))) {
      var k := OriginOf(sys, net, i, epoch, b);
      NeverEntered(sys, net, b, k, epoch);
      TermIsDecision(sys, net, k, epoch, b);
      NeverDecided(sys, net, b, k);
      assert false;
    }
  }

  // ----- The coin gate -----

  /** No correct node reveals its share of a coin before some correct node has `N - f`
      confirmations of values that it believes in. */
  lemma CoinGate(sys: System, actions: seq<Action>, net: Network, i: nat, epoch: nat, share: Ts.Share)
    returns (k: nat, vals: set<bool>)
    requires sys.Valid() && Reaches(sys, actions, net) && i in net
    requires Said(net[i].history, i, epoch, Coin(share))
    ensures k in net && ConfRound(sys.Config(k), net[k].history, epoch, vals)
  {
    hide Reaches, NetworkInv, ConfRound;
    RunInv(sys, actions, net);
    k := SomeConfRound(sys, net, i, epoch, share);
    vals :| ConfRound(sys.Config(k), net[k].history, epoch, vals);
  }

  lemma SomeConfRound(sys: System, net: Network, i: nat, epoch: nat, share: Ts.Share) returns (k: nat)
    requires NetworkInv(sys, net) && i in net && Said(net[i].history, i, epoch, Coin(share))
    ensures k in net && ConfRoundDone(sys.Config(k), net[k].history, epoch)
  {
    hide NodeInv, BvalsHaveOrigin, Authentic, Settled, ConfRoundDone;
    assert CoinsHaveOrigin(sys, net);
    assert SomeConfRoundDone(sys, net, epoch);
    k :| k in net && ConfRoundDone(sys.Config(k), net[k].history, epoch);
  }
}
