/** Every handler of Binary Agreement keeps the invariant of its node. */
module BinaryAgreementNode {
  import opened Options
  import opened Quorums
  import opened BoolMultimaps
  import opened BinaryAgreementSpec
  import opened BinaryAgreementHistory
  import Sbv = SbvSpec
  import Ts = ThresholdSignSpec

  // ----- Synchronized BV Broadcast -----

  function Tagged(epoch: nat, messages: seq<Sbv.Message>): seq<Message> {
    seq(|messages|, i requires 0 <= i < |messages| => SbvMessage(epoch, messages[i]))
  }

  /** The history after also sending `messages` in `epoch`. */
  function ExtendSbv(cfg: Config, h: History, epoch: nat, messages: seq<Sbv.Message>): History {
    Extend(cfg, h, Tagged(epoch, messages))
  }

  ghost predicate OutputsOk(cfg: Config, h: History, epoch: nat, output: seq<set<bool>>) {
    forall i :: 0 <= i < |output| ==> OutputCert(cfg, h, epoch, output[i])
  }

  /** The outcome of a call keeps the invariant, with the history extended by what it sent. */
  ghost predicate SbvOk(cfg: Config, h: History, epoch: nat, r: Sbv.Outcome) {
    var h' := ExtendSbv(cfg, h, epoch, r.step.messages);
    SbvInv(cfg, h', epoch, r.state) && OutputsOk(cfg, h', epoch, r.step.output)
  }

  lemma SbvOkQuiet(cfg: Config, h: History, epoch: nat, r: Sbv.Outcome)
    requires r.step.messages == []
    requires SbvInv(cfg, h, epoch, r.state) && OutputsOk(cfg, h, epoch, r.step.output)
    ensures SbvOk(cfg, h, epoch, r)
  {
    assert ExtendSbv(cfg, h, epoch, []).heard == h.heard;
  }

  lemma SbvOkJoin(cfg: Config, h: History, epoch: nat, st: Sbv.Step, r: Sbv.Outcome)
    requires OutputsOk(cfg, ExtendSbv(cfg, h, epoch, st.messages), epoch, st.output)
    requires SbvOk(cfg, ExtendSbv(cfg, h, epoch, st.messages), epoch, r)
    ensures SbvOk(cfg, h, epoch, Sbv.Outcome(r.state, st.Join(r.step)))
  {
    var h1 := ExtendSbv(cfg, h, epoch, st.messages);
    var h2 := ExtendSbv(cfg, h1, epoch, r.step.messages);
    ExtendTwice(cfg, h, Tagged(epoch, st.messages), Tagged(epoch, r.step.messages));
    ExtendTwice(cfg, h1, Tagged(epoch, r.step.messages), []);
    assert Tagged(epoch, st.messages) + Tagged(epoch, r.step.messages)
        == Tagged(epoch, st.messages + r.step.messages);
    CertsGrow(cfg, h1, h2);
  }

  lemma ExtendByOne(cfg: Config, h: History, epoch: nat, m: Sbv.Message)
    ensures var h1 := ExtendSbv(cfg, h, epoch, [m]);
            && Extends(h, h1)
            && Said(h1, cfg.net.ourId, epoch, SbvBroadcast(m))
            && forall e, c :: Said(h1, cfg.net.ourId, e, c) ==>
                 Said(h, cfg.net.ourId, e, c) || (e == epoch && c == SbvBroadcast(m))
  {
    assert Tagged(epoch, [m]) == [SbvMessage(epoch, m)];
    assert SbvMessage(epoch, m) in Tagged(epoch, [m]);
    assert forall x :: x in Tagged(epoch, [m]) ==> x == SbvMessage(epoch, m);
  }

  /** Sending `Aux(b)` as the first one of this epoch keeps the invariant. */
  lemma AddOwnAux(cfg: Config, h: History, epoch: nat, s: Sbv.State, b: bool)
    requires SbvInv(cfg, h, epoch, s) && b in s.binValues
    requires forall v :: !Said(h, cfg.net.ourId, epoch, SbvBroadcast(Sbv.Aux(v)))
    ensures SbvInv(cfg, ExtendSbv(cfg, h, epoch, [Sbv.Aux(b)]), epoch, s)
  {
    var h1 := ExtendSbv(cfg, h, epoch, [Sbv.Aux(b)]);
    ExtendByOne(cfg, h, epoch, Sbv.Aux(b));
    VotersGrow(cfg, h, h1);
    CertsGrow(cfg, h, h1);
    SubsetSize(s.receivedBval.Get(b), BvalVoters(cfg, h, epoch, b));
    assert Believed(cfg, h, epoch, b);
    assert forall e: nat, v :: Said(h1, cfg.net.ourId, e, SbvBroadcast(Sbv.BVal(v))) ==>
        Said(h, cfg.net.ourId, e, SbvBroadcast(Sbv.BVal(v)));
    assert OwnAux(cfg, h1, epoch, s.binValues);
  }

  /** Sending a justified `BVal(b)` keeps the invariant. */
  lemma AddOwnBval(cfg: Config, h: History, epoch: nat, s: Sbv.State, b: bool)
    requires SbvInv(cfg, h, epoch, s) && BvalJustified(cfg, h, epoch, b)
    ensures SbvInv(cfg, ExtendSbv(cfg, h, epoch, [Sbv.BVal(b)]), epoch, s.(sentBval := s.sentBval + {b}))
  {
    var h1 := ExtendSbv(cfg, h, epoch, [Sbv.BVal(b)]);
    ExtendByOne(cfg, h, epoch, Sbv.BVal(b));
    VotersGrow(cfg, h, h1);
    CertsGrow(cfg, h, h1);
    assert forall e: nat, v :: Said(h1, cfg.net.ourId, e, SbvBroadcast(Sbv.Aux(v))) ==>
        Said(h, cfg.net.ourId, e, SbvBroadcast(Sbv.Aux(v)));
    assert OwnAux(cfg, h1, epoch, s.binValues);
  }

  lemma AuxValuesExist(s: Sbv.State)
    requires Sbv.CountAux(s) > 0
    ensures Sbv.AuxValues(s) != {}
  {
    var b := !(false in s.binValues && s.receivedAux.no != {});
    assert b in Sbv.AuxValues(s);
  }

  /** Enough `Aux` messages for believed values make a certified output. */
  lemma TryOutputOk(cfg: Config, h: History, epoch: nat, s: Sbv.State)
    requires SbvInv(cfg, h, epoch, s)
    ensures SbvOk(cfg, h, epoch, Sbv.TryOutput(cfg.net, s))
  {
    var r := Sbv.TryOutput(cfg.net, s);
    if r.step.output != [] {
      var vals := Sbv.AuxValues(s);
      AuxValuesExist(s);
      forall b | b in vals ensures Believed(cfg, h, epoch, b) {
        SubsetSize(s.receivedBval.Get(b), BvalVoters(cfg, h, epoch, b));
      }
      forall b | vals == {b} ensures |AuxVoters(cfg, h, epoch, b)| >= cfg.net.NumCorrect() {
        assert b in vals && !b !in vals;
        assert Sbv.CountAux(s) <= |s.receivedAux.Get(b)|;
        SubsetSize(s.receivedAux.Get(b), AuxVoters(cfg, h, epoch, b));
      }
    }
    SbvOkQuiet(cfg, h, epoch, r);
  }

  lemma HandleAuxOk(cfg: Config, h: History, epoch: nat, s: Sbv.State, sender: nat, b: bool)
    requires SbvInv(cfg, h, epoch, s) && sender in AuxVoters(cfg, h, epoch, b)
    ensures SbvOk(cfg, h, epoch, Sbv.HandleAux(cfg.net, s, sender, b))
  {
    if sender in s.receivedAux.Get(b) {
      SbvOkQuiet(cfg, h, epoch, Sbv.HandleAux(cfg.net, s, sender, b));
    } else {
      TryOutputOk(cfg, h, epoch, s.(receivedAux := s.receivedAux.Add(b, sender)));
    }
  }

  lemma SendAuxOk(cfg: Config, h: History, epoch: nat, s: Sbv.State, b: bool)
    requires SbvInv(cfg, h, epoch, s) && b in s.binValues
    requires forall v :: !Said(h, cfg.net.ourId, epoch, SbvBroadcast(Sbv.Aux(v)))
    ensures SbvOk(cfg, h, epoch, Sbv.SendAux(cfg.net, s, b))
  {
    if !cfg.net.IsValidator() {
      TryOutputOk(cfg, h, epoch, s);
    } else {
      var m := Sbv.Aux(b);
      var h1 := ExtendSbv(cfg, h, epoch, [m]);
      ExtendByOne(cfg, h, epoch, m);
      AddOwnAux(cfg, h, epoch, s, b);
      HandleAuxOk(cfg, h1, epoch, s, cfg.net.ourId, b);
      SbvOkJoin(cfg, h, epoch, Sbv.Step([m], [], []), Sbv.HandleAux(cfg.net, s, cfg.net.ourId, b));
    }
  }

  /** On the `2f + 1`-st `BVal(b)`, `b` was not believed before: the count never skips. */
  lemma BelieveInOk(cfg: Config, h: History, epoch: nat, s: Sbv.State, b: bool)
    requires SbvInv(cfg, h, epoch, s) && b !in s.binValues
    requires |s.receivedBval.Get(b)| >= 2 * cfg.net.NumFaulty() + 1
    ensures SbvOk(cfg, h, epoch, Sbv.BelieveIn(cfg.net, s, b))
  {
    var s1 := s.(binValues := s.binValues + {b});
    assert SbvInv(cfg, h, epoch, s1);
    if s1.binValues != Sbv.BOTH {
      if !b in s.binValues {
        BothValues(s1.binValues, b);
        assert false;
      }
      forall v ensures !Said(h, cfg.net.ourId, epoch, SbvBroadcast(Sbv.Aux(v))) {
        assert v == b || v == !b;
      }
      SendAuxOk(cfg, h, epoch, s1, b);
    } else {
      TryOutputOk(cfg, h, epoch, s1);
    }
  }

  lemma SendBvalOk(cfg: Config, h: History, epoch: nat, s: Sbv.State, b: bool)
    requires SbvInv(cfg, h, epoch, s) && (b in s.sentBval || BvalJustified(cfg, h, epoch, b))
    ensures SbvOk(cfg, h, epoch, Sbv.SendBval(cfg.net, s, b))
    decreases Sbv.Unsent(s, b), 0
  {
    var s1 := s.(sentBval := s.sentBval + {b});
    if b in s.sentBval {
      SbvOkQuiet(cfg, h, epoch, Sbv.Outcome(s, Sbv.NO_STEP));
    } else if !cfg.net.IsValidator() {
      TryOutputOk(cfg, h, epoch, s1);
    } else {
      var m := Sbv.BVal(b);
      var h1 := ExtendSbv(cfg, h, epoch, [m]);
      ExtendByOne(cfg, h, epoch, m);
      AddOwnBval(cfg, h, epoch, s, b);
      HandleBvalOk(cfg, h1, epoch, s1, cfg.net.ourId, b);
      SbvOkJoin(cfg, h, epoch, Sbv.Step([m], [], []), Sbv.HandleBval(cfg.net, s1, cfg.net.ourId, b));
    }
  }

  lemma HandleBvalOk(cfg: Config, h: History, epoch: nat, s: Sbv.State, sender: nat, b: bool)
    requires SbvInv(cfg, h, epoch, s) && sender in BvalVoters(cfg, h, epoch, b)
    requires sender == cfg.net.ourId ==> b in s.sentBval
    ensures SbvOk(cfg, h, epoch, Sbv.HandleBval(cfg.net, s, sender, b))
    decreases Sbv.Unsent(s, b), 1
  {
    if sender in s.receivedBval.Get(b) {
      SbvOkQuiet(cfg, h, epoch, Sbv.HandleBval(cfg.net, s, sender, b));
    } else {
      var s1 := s.(receivedBval := s.receivedBval.Add(b, sender));
      var count := |s1.receivedBval.Get(b)|;
      assert SbvInv(cfg, h, epoch, s1);
      var r1 := if count == 2 * cfg.net.NumFaulty() + 1 then Sbv.BelieveIn(cfg.net, s1, b)
                else Sbv.Outcome(s1, Sbv.NO_STEP);
      if count == 2 * cfg.net.NumFaulty() + 1 {
        BelieveInOk(cfg, h, epoch, s1, b);
      } else {
        SbvOkQuiet(cfg, h, epoch, r1);
      }
      if count == cfg.net.NumFaulty() + 1 {
        var h1 := ExtendSbv(cfg, h, epoch, r1.step.messages);
        BelieveInKeeps(cfg, s1, b);
        if b !in r1.state.sentBval {
          RepeatJustified(cfg, h, h1, epoch, s1, b);
        }
        SendBvalOk(cfg, h1, epoch, r1.state, b);
        SbvOkJoin(cfg, h, epoch, r1.step, Sbv.SendBval(cfg.net, r1.state, b));
      }
    }
  }

  lemma BelieveInKeeps(cfg: Config, s: Sbv.State, b: bool)
    ensures Sbv.BelieveIn(cfg.net, s, b).state.sentBval == s.sentBval
  {
  }

  /** `f + 1` others sent `BVal(b)` if we have not: then ours is not among them. */
  lemma RepeatJustified(cfg: Config, h: History, h1: History, epoch: nat, s: Sbv.State, b: bool)
    requires SbvInv(cfg, h, epoch, s) && Extends(h, h1)
    requires b !in s.sentBval && |s.receivedBval.Get(b)| > cfg.net.NumFaulty()
    ensures BvalJustified(cfg, h1, epoch, b)
  {
    assert s.receivedBval.Get(b) <= BvalVoters(cfg, h, epoch, b) - {cfg.net.ourId};
    SubsetSize(s.receivedBval.Get(b), BvalVoters(cfg, h, epoch, b) - {cfg.net.ourId});
    CertsGrow(cfg, h, h1);
  }

  // ----- Steps of the agreement -----

  ghost predicate NodeOk(cfg: Config, h: History, r: Outcome) {
    NodeInv(cfg, Extend(cfg, h, r.step.messages), r.state)
  }

  lemma NodeOkQuiet(cfg: Config, h: History, r: Outcome)
    requires NodeInv(cfg, h, r.state) && r.step.messages == []
    ensures NodeOk(cfg, h, r)
  {
    assert Extend(cfg, h, []).heard == h.heard;
  }

  lemma NodeOkJoin(cfg: Config, h: History, st: Step, r: Outcome)
    requires NodeOk(cfg, Extend(cfg, h, st.messages), r)
    ensures NodeOk(cfg, h, Outcome(r.state, st.Join(r.step)))
  {
    ExtendTwice(cfg, h, st.messages, r.step.messages);
  }

  lemma NewOwnSbv(cfg: Config, h: History, epoch: nat, messages: seq<Sbv.Message>)
    ensures var h' := ExtendSbv(cfg, h, epoch, messages);
            Extends(h, h') && forall m :: NewOwn(cfg, h, h', m) ==> m.content.SbvBroadcast?
  {
  }

  /** A call of the broadcast that keeps its invariant keeps that of the node. */
  lemma SbvUpdateOk(cfg: Config, h: History, s: State, r: Sbv.Outcome)
    requires NodeInv(cfg, h, s) && SbvOk(cfg, h, s.epoch, r)
    ensures var h' := ExtendSbv(cfg, h, s.epoch, r.step.messages);
            NodeInv(cfg, h', s.(sbv := r.state)) && OutputsOk(cfg, h', s.epoch, r.step.output)
  {
    var h' := ExtendSbv(cfg, h, s.epoch, r.step.messages);
    NewOwnSbv(cfg, h, s.epoch, r.step.messages);
    StateInvGrows(cfg, h, h', s.(sbv := r.state));
    OwnTermGrows(cfg, h, h', s.epoch, s.decision);
    OwnCoinGrows(cfg, h, h');
  }

  lemma ExtendByMessage(cfg: Config, h: History, m: Message)
    ensures var h1 := Extend(cfg, h, [m]);
            && Extends(h, h1)
            && Said(h1, cfg.net.ourId, m.epoch, m.content)
            && forall x :: NewOwn(cfg, h, h1, x) ==> x == m
  {
    assert m in [m];
  }

  lemma DecideOk(cfg: Config, h: History, s: State, b: bool)
    requires Valid(cfg, if s.decision.None? then s.(decision := Some(b)) else s)
    requires NodeInv(cfg, h, s) && DecisionCert(cfg, h, s.epoch, b)
    ensures NodeOk(cfg, h, Decide(cfg, s, b))
  {
    if s.decision.Some? {
      NodeOkQuiet(cfg, h, Decide(cfg, s, b));
    } else {
      NewDecision(cfg, h, s, b);
      DecideAnnounces(cfg, s, b);
      AddOwnTerm(cfg, h, s, b, Decide(cfg, s, b));
    }
  }

  lemma DecideAnnounces(cfg: Config, s: State, b: bool)
    requires s.decision.None? && Valid(cfg, s.(decision := Some(b)))
    ensures var r := Decide(cfg, s, b);
            && r.state == s.(decision := Some(b))
            && r.step.messages == if cfg.net.IsValidator() then [Message(s.epoch + 1, Term(b))] else []
  {
  }

  lemma NewDecision(cfg: Config, h: History, s: State, b: bool)
    requires StateInv(cfg, h, s) && s.decision.None?
    requires OwnTerm(cfg, h, s.epoch, s.decision) && DecisionCert(cfg, h, s.epoch, b)
    ensures StateInv(cfg, h, s.(decision := Some(b)))
    ensures OwnTerm(cfg, h, s.epoch, None) && OwnTerm(cfg, h, s.epoch, Some(b))
  {
  }

  lemma AddOwnTerm(cfg: Config, h: History, s: State, b: bool, r: Outcome)
    requires SbvInv(cfg, h, s.epoch, s.sbv) && StateInv(cfg, h, r.state) && OwnCoin(cfg, h)
    requires OwnTerm(cfg, h, s.epoch, None) && r.state == s.(decision := Some(b))
    requires r.step.messages == if cfg.net.IsValidator() then [Message(s.epoch + 1, Term(b))] else []
    ensures NodeOk(cfg, h, r)
  {
    var m := Message(s.epoch + 1, Term(b));
    var h1 := Extend(cfg, h, r.step.messages);
    forall x | NewOwn(cfg, h, h1, x) ensures x == m {
      assert x in r.step.messages;
    }
    SbvInvGrows(cfg, h, h1, s.epoch, s.sbv);
    StateInvGrows(cfg, h, h1, r.state);
    OwnCoinGrows(cfg, h, h1);
    forall t: nat, v | Said(h1, cfg.net.ourId, t, Term(v)) ensures t == s.epoch + 1 && v == b {
      assert !Said(h, cfg.net.ourId, t, Term(v));
      assert NewOwn(cfg, h, h1, Message(t, Term(v)));
    }
  }

  /** A certified output that does not decide leads into the next epoch. */
  lemma EnterEpochOk(cfg: Config, h: History, s: State, b: bool)
    requires Valid(cfg, s) && s.decision.None?
    requires NodeInv(cfg, h, s) && CanEnter(cfg, h, s.epoch + 1, b)
    ensures var (s1, st) := EnterEpoch(cfg, s, b);
            var h' := ExtendSbv(cfg, h, s1.epoch, st.messages);
            NodeInv(cfg, h', s1) && OutputsOk(cfg, h', s1.epoch, st.output)
  {
    hide StateInv, OwnTerm, OwnCoin, CanEnter;
    var s1 := NextEpoch(s, b);
    NextEpochOk(cfg, h, s, b);
    SendBvalOk(cfg, h, s1.epoch, s1.sbv, b);
    SbvUpdateOk(cfg, h, s1, Sbv.SendBval(cfg.net, s1.sbv, b));
  }

  lemma NextEpochOk(cfg: Config, h: History, s: State, b: bool)
    requires s.decision.None? && NodeInv(cfg, h, s) && CanEnter(cfg, h, s.epoch + 1, b)
    ensures NodeInv(cfg, h, NextEpoch(s, b))
  {
    hide SbvInv, StateInv, CanEnter;
    TermsCount(cfg, h, s);
    NextSbvOk(cfg, h, s);
    NextStateOk(cfg, h, s, b);
  }

  lemma NextSbvOk(cfg: Config, h: History, s: State)
    requires SbvInv(cfg, h, s.epoch, s.sbv) && StateInv(cfg, h, s)
    ensures SbvInv(cfg, h, s.epoch + 1, Sbv.Clear(s.receivedTerm))
  {
    hide BvalJustified, Believed;
    TermsCount(cfg, h, s);
  }

  lemma NextStateOk(cfg: Config, h: History, s: State, b: bool)
    requires s.decision.None? && StateInv(cfg, h, s) && CanEnter(cfg, h, s.epoch + 1, b)
    ensures StateInv(cfg, h, NextEpoch(s, b))
  {
    hide CanEnter;
    TermsCount(cfg, h, s);
  }

  /** A `Term` of this epoch counts as `BVal`, `Aux` and `Conf` in the next. */
  lemma TermsCount(cfg: Config, h: History, s: State)
    requires StateInv(cfg, h, s)
    ensures forall b :: s.receivedTerm.Get(b) <= TermVoters(cfg, h, s.epoch + 1, b) - {cfg.net.ourId}
    ensures forall b :: s.receivedTerm.Get(b) <= BvalVoters(cfg, h, s.epoch + 1, b)
    ensures forall b :: s.receivedTerm.Get(b) <= AuxVoters(cfg, h, s.epoch + 1, b)
    ensures var conf := TermsAsConf(s.receivedTerm);
            forall id :: id in conf ==> id < cfg.net.n && Confirmed(h, s.epoch + 1, conf[id], id)
  {
    forall b, id | id in s.receivedTerm.Get(b)
      ensures TermBy(h, s.epoch + 1, b, id) && id in TermVoters(cfg, h, s.epoch + 1, b)
    {
      assert id in TermVoters(cfg, h, s.epoch, b);
      var t: nat :| t <= s.epoch && Said(h, id, t, Term(b));
    }
    assert forall id :: id in s.receivedTerm.no ==> id in s.receivedTerm.Get(false);
    assert forall id :: id in s.receivedTerm.yes ==> id in s.receivedTerm.Get(true);
  }

  // ----- The coin -----

  function CoinMessages(epoch: nat, shares: seq<Ts.Share>): seq<Message> {
    seq(|shares|, i requires 0 <= i < |shares| => Message(epoch, Coin(shares[i])))
  }

  ghost predicate TsOk(cfg: Config, h: History, epoch: nat, r: Ts.Outcome) {
    var h' := Extend(cfg, h, CoinMessages(epoch, r.step.messages));
    CoinInv(cfg, h', epoch, r.state) && OwnCoin(cfg, h')
  }

  lemma TsOkQuiet(cfg: Config, h: History, epoch: nat, r: Ts.Outcome)
    requires r.step.messages == [] && CoinInv(cfg, h, epoch, r.state) && OwnCoin(cfg, h)
    ensures TsOk(cfg, h, epoch, r)
  {
    assert Extend(cfg, h, []).heard == h.heard;
  }

  lemma SignOk(cfg: Config, h: History, epoch: nat, s: Ts.State)
    requires CoinInv(cfg, h, epoch, s) && OwnCoin(cfg, h) && s.doc == epoch
    requires s.hadInput || CoinJustified(cfg, h, epoch)
    ensures TsOk(cfg, h, epoch, Ts.Sign(cfg.net, s))
    decreases Ts.Pending(s), 0
  {
    hide CoinJustified, OwnCoin;
    var s1 := s.(hadInput := true);
    if s.hadInput {
      TsOkQuiet(cfg, h, epoch, Ts.Sign(cfg.net, s));
    } else if !cfg.net.IsValidator() {
      TryOutputCoinOk(cfg, h, epoch, s1);
    } else {
      var share := Ts.Share(cfg.net.ourId, epoch);
      var m := Message(epoch, Coin(share));
      var h1 := Extend(cfg, h, [m]);
      ExtendByMessage(cfg, h, m);
      VotersGrow(cfg, h, h1);
      AddOwnCoin(cfg, h, epoch, share);
      HandleShareOk(cfg, h1, epoch, s1, cfg.net.ourId, share);
      var r := Ts.HandleShare(cfg.net, s1, cfg.net.ourId, share);
      ExtendTwice(cfg, h, [m], CoinMessages(epoch, r.step.messages));
      assert [m] + CoinMessages(epoch, r.step.messages) == CoinMessages(epoch, [share] + r.step.messages);
    }
  }

  lemma AddOwnCoin(cfg: Config, h: History, epoch: nat, share: Ts.Share)
    requires OwnCoin(cfg, h) && CoinJustified(cfg, h, epoch) && share == Ts.Share(cfg.net.ourId, epoch)
    ensures OwnCoin(cfg, Extend(cfg, h, [Message(epoch, Coin(share))]))
  {
    hide CoinJustified, Believed;
    var m := Message(epoch, Coin(share));
    var h1 := Extend(cfg, h, [m]);
    ExtendByMessage(cfg, h, m);
    CertsGrow(cfg, h, h1);
    forall e: nat, c | Said(h1, cfg.net.ourId, e, Coin(c))
      ensures CoinJustified(cfg, h1, e) && c == Ts.Share(cfg.net.ourId, e)
    {
      if !Said(h, cfg.net.ourId, e, Coin(c)) {
        assert NewOwn(cfg, h, h1, Message(e, Coin(c)));
      }
    }
    forall e: nat, v | Said(h1, cfg.net.ourId, e, Conf(v)) ensures Said(h, cfg.net.ourId, e, Conf(v)) {
      assert !NewOwn(cfg, h, h1, Message(e, Conf(v)));
    }
  }

  /** More than `f` shares, none of them ours, justify sending ours too. */
  lemma TryOutputCoinOk(cfg: Config, h: History, epoch: nat, s: Ts.State)
    requires CoinInv(cfg, h, epoch, s) && OwnCoin(cfg, h) && s.doc == epoch
    ensures TsOk(cfg, h, epoch, Ts.TryOutput(cfg.net, s))
    decreases Ts.Pending(s), 1
  {
    if Ts.HasEnough(cfg.net, s) {
      if !s.hadInput {
        var others := CoinVoters(cfg, h, epoch) - {cfg.net.ourId};
        assert s.receivedShares.Keys <= others;
        SubsetSize(s.receivedShares.Keys, others);
      }
      SignOk(cfg, h, epoch, s.(terminated := true));
      var r := Ts.Sign(cfg.net, s.(terminated := true));
      assert r.step.messages + [] == r.step.messages;
    } else {
      TsOkQuiet(cfg, h, epoch, Ts.TryOutput(cfg.net, s));
    }
  }

  lemma HandleShareOk(cfg: Config, h: History, epoch: nat, s: Ts.State, sender: nat, share: Ts.Share)
    requires CoinInv(cfg, h, epoch, s) && OwnCoin(cfg, h) && s.doc == epoch
    requires sender < cfg.net.n && Said(h, sender, epoch, Coin(share))
    requires sender == cfg.net.ourId ==> s.hadInput
    ensures TsOk(cfg, h, epoch, Ts.HandleShare(cfg.net, s, sender, share))
    decreases Ts.Pending(s), 2
  {
    if s.terminated || !Ts.IsShareValid(s, sender, share) {
      TsOkQuiet(cfg, h, epoch, Ts.HandleShare(cfg.net, s, sender, share));
    } else {
      assert sender in CoinVoters(cfg, h, epoch);
      TryOutputCoinOk(cfg, h, epoch, s.(receivedShares := s.receivedShares[sender := share]));
    }
  }

  // ----- The handlers -----

  /** Someone sent us `content`, in a way that makes it count in `epoch`. */
  ghost predicate Heard(cfg: Config, h: History, epoch: nat, sender: nat, content: Content) {
    && sender < cfg.net.n
    && (sender == cfg.net.ourId ==> content.Conf?)
    && (if content.Term? then TermBy(h, epoch, content.b, sender)
        else Said(h, sender, epoch, content))
  }

  lemma HeardGrows(cfg: Config, h: History, h': History, epoch: nat, sender: nat, content: Content)
    requires Heard(cfg, h, epoch, sender, content) && Extends(h, h')
    ensures Heard(cfg, h', epoch, sender, content)
  {
    if content.Term? {
      var t: nat :| t <= epoch && Said(h, sender, t, content);
      assert Said(h', sender, t, content);
    }
  }

  lemma TryUpdateEpochOk(cfg: Config, h: History, s: State)
    requires Valid(cfg, s) && NodeInv(cfg, h, s)
    ensures NodeOk(cfg, h, TryUpdateEpoch(cfg, s))
    decreases |s.incomingQueue|, FinishWeight(s), 1
  {
    hide SbvInv, StateInv, OwnTerm, OwnCoin;
    if !CanFinish(s) {
      NodeOkQuiet(cfg, h, TryUpdateEpoch(cfg, s));
    } else {
      var coin := s.coinState.value;
      var vals := s.confValues.value;
      FinishCerts(cfg, h, s);
      if Definite(vals) == Some(coin) {
        DecideOk(cfg, h, s, coin);
        assert TryUpdateEpoch(cfg, s) == Decide(cfg, s, coin);
      } else {
        var b := EstimateAfter(cfg, s.epoch, vals);
        UpdateEpochOk(cfg, h, s, b);
        assert TryUpdateEpoch(cfg, s) == UpdateEpoch(cfg, s, b);
      }
    }
  }

  lemma FinishCerts(cfg: Config, h: History, s: State)
    requires Valid(cfg, s) && NodeInv(cfg, h, s) && CanFinish(s)
    ensures var vals := s.confValues.value;
            var b := EstimateAfter(cfg, s.epoch, vals);
            if Definite(vals) == Some(s.coinState.value) then
              DecisionCert(cfg, h, s.epoch, s.coinState.value)
            else
              CanEnter(cfg, h, s.epoch + 1, b) && Distance(s.epoch + 1, b) + 1 < StateWeight(s)
  {
    var vals := s.confValues.value;
    if Definite(vals) == Some(s.coinState.value) {
      assert vals == {s.coinState.value};
    } else {
      assert Enters(cfg, h, s.epoch + 1, vals, EstimateAfter(cfg, s.epoch, vals));
    }
  }

  lemma UpdateEpochOk(cfg: Config, h: History, s: State, b: bool)
    requires Valid(cfg, s) && s.decision.None?
    requires NodeInv(cfg, h, s) && CanEnter(cfg, h, s.epoch + 1, b)
    ensures NodeOk(cfg, h, UpdateEpoch(cfg, s, b))
    decreases |s.incomingQueue|, Distance(s.epoch + 1, b) + 1, 10
  {
    hide NodeInv, CanEnter, Valid;
    StartEpochOk(cfg, h, s, b);
    var r1 := StartEpoch(cfg, s, b);
    DrainQueueOk(cfg, Extend(cfg, h, r1.step.messages), r1.state);
    NodeOkJoin(cfg, h, r1.step, DrainQueue(cfg, r1.state));
  }

  lemma StartEpochOk(cfg: Config, h: History, s: State, b: bool)
    requires Valid(cfg, s) && s.decision.None?
    requires NodeInv(cfg, h, s) && CanEnter(cfg, h, s.epoch + 1, b)
    ensures NodeOk(cfg, h, StartEpoch(cfg, s, b))
    decreases |s.incomingQueue|, Distance(s.epoch + 1, b) + 1, 9
  {
    hide NodeInv, OutputsOk, CanEnter, Valid, StepWeight, Distance;
    var (s1, st) := EnterEpoch(cfg, s, b);
    EnterEpochOk(cfg, h, s, b);
    HandleSbvbStepOk(cfg, h, s1, st);
  }

  lemma DrainQueueOk(cfg: Config, h: History, s: State)
    requires Settled(cfg, s) && NodeInv(cfg, h, s)
    ensures NodeOk(cfg, h, DrainQueue(cfg, s))
    decreases |s.incomingQueue|, 0, 9
  {
    hide SbvInv, StateInv, OwnTerm, OwnCoin;
    if s.epoch !in s.incomingQueue {
      NodeOkQuiet(cfg, h, DrainQueue(cfg, s));
    } else {
      RemoveKey(s.incomingQueue, s.epoch);
      FlattenSenders(s.incomingQueue[s.epoch], cfg.net.n);
      FlattenHeard(cfg, h, s, cfg.net.n);
      DequeueOk(cfg, h, s);
      HandleQueuedOk(cfg, h, Dequeue(s), s.epoch, Flatten(s.incomingQueue[s.epoch], cfg.net.n));
    }
  }

  lemma DequeueOk(cfg: Config, h: History, s: State)
    requires Settled(cfg, s) && NodeInv(cfg, h, s)
    ensures Settled(cfg, Dequeue(s)) && NodeInv(cfg, h, Dequeue(s))
  {
  }

  ghost predicate AllHeard(cfg: Config, h: History, epoch: nat, queued: seq<(nat, Content)>) {
    forall i :: 0 <= i < |queued| ==> Heard(cfg, h, epoch, queued[i].0, queued[i].1)
  }

  lemma {:induction false} FlattenHeard(cfg: Config, h: History, s: State, n: nat)
    requires StateInv(cfg, h, s) && s.epoch in s.incomingQueue && n <= cfg.net.n
    ensures AllHeard(cfg, h, s.epoch, Flatten(s.incomingQueue[s.epoch], n))
  {
    if n > 0 {
      FlattenHeard(cfg, h, s, n - 1);
      var received := s.incomingQueue[s.epoch];
      var last := From(received, n - 1);
      forall i | 0 <= i < |last| ensures Heard(cfg, h, s.epoch, last[i].0, last[i].1) {
        assert last[i].1 in received[n - 1].Contents();
        assert Said(h, n - 1, s.epoch, last[i].1);
      }
    }
  }

  lemma HandleQueuedOk(cfg: Config, h: History, s: State, epoch: nat, queued: seq<(nat, Content)>)
    requires Settled(cfg, s) && NodeInv(cfg, h, s) && s.epoch == epoch
    requires forall i :: 0 <= i < |queued| ==> queued[i].0 < cfg.net.n
    requires AllHeard(cfg, h, epoch, queued)
    ensures NodeOk(cfg, h, HandleQueued(cfg, s, epoch, queued))
    decreases |s.incomingQueue|, 7, |queued|
  {
    hide SbvInv, StateInv, OwnTerm, OwnCoin;
    if queued == [] {
      NodeOkQuiet(cfg, h, HandleQueued(cfg, s, epoch, queued));
    } else {
      HandleContentOk(cfg, h, s, queued[0].0, queued[0].1);
      var r := HandleContent(cfg, s, queued[0].0, queued[0].1);
      if r.state.decision.None? && r.state.epoch == epoch {
        var h1 := Extend(cfg, h, r.step.messages);
        var rest := queued[1..];
        forall i | 0 <= i < |rest| ensures Heard(cfg, h1, epoch, rest[i].0, rest[i].1) {
          HeardGrows(cfg, h, h1, epoch, queued[i + 1].0, queued[i + 1].1);
        }
        HandleQueuedOk(cfg, h1, r.state, epoch, rest);
        NodeOkJoin(cfg, h, r.step, HandleQueued(cfg, r.state, epoch, rest));
      }
    }
  }

  lemma HandleContentOk(cfg: Config, h: History, s: State, sender: nat, content: Content)
    requires Settled(cfg, s) && NodeInv(cfg, h, s) && Heard(cfg, h, s.epoch, sender, content)
    ensures NodeOk(cfg, h, HandleContent(cfg, s, sender, content))
    decreases |s.incomingQueue|, ContentWeight(s, content), 5
  {
    match content
    case SbvBroadcast(msg) => HandleSbvBroadcastOk(cfg, h, s, sender, msg);
    case Conf(vals) => HandleConfOk(cfg, h, s, sender, vals);
    case Term(b) => HandleTermOk(cfg, h, s, sender, b);
    case Coin(share) => HandleCoinOk(cfg, h, s, sender, share);
  }

  lemma HandleSbvBroadcastOk(cfg: Config, h: History, s: State, sender: nat, msg: Sbv.Message)
    requires Settled(cfg, s) && NodeInv(cfg, h, s) && Heard(cfg, h, s.epoch, sender, SbvBroadcast(msg))
    ensures NodeOk(cfg, h, HandleSbvBroadcast(cfg, s, sender, msg))
    decreases |s.incomingQueue|, 6, 4
  {
    var r := Sbv.HandleMessage(cfg.net, s.sbv, sender, msg);
    match msg {
      case BVal(b) =>
        assert sender in BvalVoters(cfg, h, s.epoch, b);
        HandleBvalOk(cfg, h, s.epoch, s.sbv, sender, b);
      case Aux(b) =>
        assert sender in AuxVoters(cfg, h, s.epoch, b);
        HandleAuxOk(cfg, h, s.epoch, s.sbv, sender, b);
    }
    SbvUpdateOk(cfg, h, s, r);
    HandleSbvbStepOk(cfg, h, s.(sbv := r.state), r.step);
  }

  /** Here the history lacks what the broadcast just sent: that is part of the outcome. */
  lemma HandleSbvbStepOk(cfg: Config, h: History, s: State, st: Sbv.Step)
    requires Settled(cfg, s)
    requires var h1 := ExtendSbv(cfg, h, s.epoch, st.messages);
             NodeInv(cfg, h1, s) && OutputsOk(cfg, h1, s.epoch, st.output)
    ensures NodeOk(cfg, h, HandleSbvbStep(cfg, s, st))
    decreases |s.incomingQueue|, StepWeight(s, st), 8
  {
    var step := FromSbvStep(s.epoch, st);
    assert step.messages == Tagged(s.epoch, st.messages);
    if s.confValues.None? && st.output != [] {
      var h1 := ExtendSbv(cfg, h, s.epoch, st.messages);
      var auxVals := st.output[0];
      assert OutputCert(cfg, h1, s.epoch, auxVals);
      if s.coinState.Decided? {
        var s1 := s.(confValues := Some(auxVals));
        assert NodeInv(cfg, h1, s1);
        TryUpdateEpochOk(cfg, h1, s1);
        NodeOkJoin(cfg, h, step, TryUpdateEpoch(cfg, s1));
      } else {
        SendConfOk(cfg, h1, s, auxVals);
        NodeOkJoin(cfg, h, step, SendConf(cfg, s, auxVals));
      }
    }
  }

  lemma SendConfOk(cfg: Config, h: History, s: State, vals: set<bool>)
    requires Settled(cfg, s) && s.coinState.InProgress?
    requires NodeInv(cfg, h, s) && OutputCert(cfg, h, s.epoch, vals)
    ensures NodeOk(cfg, h, SendConf(cfg, s, vals))
    decreases |s.incomingQueue|, Weight(s.epoch, vals), 7
  {
    if s.confValues.Some? {
      NodeOkQuiet(cfg, h, SendConf(cfg, s, vals));
    } else {
      var s1 := s.(confValues := Some(vals));
      assert NodeInv(cfg, h, s1);
      if !cfg.net.IsValidator() {
        TryFinishConfRoundOk(cfg, h, s1);
      } else {
        var m := Message(s.epoch, Conf(vals));
        AddOwnConf(cfg, h, s1, vals);
        HandleContentOk(cfg, Extend(cfg, h, [m]), s1, cfg.net.ourId, Conf(vals));
        NodeOkJoin(cfg, h, Step([m], [], []), HandleContent(cfg, s1, cfg.net.ourId, Conf(vals)));
      }
    }
  }

  lemma AddOwnConf(cfg: Config, h: History, s: State, vals: set<bool>)
    requires NodeInv(cfg, h, s) && OutputCert(cfg, h, s.epoch, vals)
    ensures var h1 := Extend(cfg, h, [Message(s.epoch, Conf(vals))]);
            NodeInv(cfg, h1, s) && Said(h1, cfg.net.ourId, s.epoch, Conf(vals))
  {
    hide SbvInv, StateInv, OwnTerm, OwnCoin;
    var m := Message(s.epoch, Conf(vals));
    var h1 := Extend(cfg, h, [m]);
    ExtendByMessage(cfg, h, m);
    SbvInvGrows(cfg, h, h1, s.epoch, s.sbv);
    StateInvGrows(cfg, h, h1, s);
    OwnTermGrows(cfg, h, h1, s.epoch, s.decision);
    ConfIsBelieved(cfg, h, h1, s.epoch, vals);
  }

  lemma ConfIsBelieved(cfg: Config, h: History, h1: History, epoch: nat, vals: set<bool>)
    requires OwnCoin(cfg, h) && OutputCert(cfg, h, epoch, vals) && Extends(h, h1)
    requires forall x :: NewOwn(cfg, h, h1, x) ==> x == Message(epoch, Conf(vals))
    ensures OwnCoin(cfg, h1)
  {
    CertsGrow(cfg, h, h1);
    hide CoinJustified, Believed;
    forall e: nat, c | Said(h1, cfg.net.ourId, e, Coin(c)) ensures Said(h, cfg.net.ourId, e, Coin(c)) {
      assert !NewOwn(cfg, h, h1, Message(e, Coin(c)));
    }
    forall e: nat, v, b | Said(h1, cfg.net.ourId, e, Conf(v)) && b in v ensures Believed(cfg, h1, e, b) {
      if !Said(h, cfg.net.ourId, e, Conf(v)) {
        assert NewOwn(cfg, h, h1, Message(e, Conf(v)));
      }
    }
  }

  lemma HandleConfOk(cfg: Config, h: History, s: State, sender: nat, vals: set<bool>)
    requires Settled(cfg, s) && NodeInv(cfg, h, s)
    requires sender < cfg.net.n && Confirmed(h, s.epoch, vals, sender)
    ensures NodeOk(cfg, h, HandleConf(cfg, s, sender, vals))
    decreases |s.incomingQueue|, StateWeight(s), 4
  {
    var s1 := s.(receivedConf := s.receivedConf[sender := vals]);
    assert NodeInv(cfg, h, s1);
    TryFinishConfRoundOk(cfg, h, s1);
  }

  lemma HandleTermOk(cfg: Config, h: History, s: State, sender: nat, b: bool)
    requires Settled(cfg, s) && NodeInv(cfg, h, s) && Heard(cfg, h, s.epoch, sender, Term(b))
    ensures NodeOk(cfg, h, HandleTerm(cfg, s, sender, b))
    decreases |s.incomingQueue|, 6, 4
  {
    hide NodeInv, DecisionCert;
    var s1 := s.(receivedTerm := s.receivedTerm.Add(b, sender));
    AddTermOk(cfg, h, s, sender, b);
    if s1.decision.Some? {
      NodeOkQuiet(cfg, h, HandleTerm(cfg, s, sender, b));
    } else if |s1.receivedTerm.Get(b)| > cfg.net.NumFaulty() {
      DecideOk(cfg, h, s1, b);
    } else {
      assert s1.receivedTerm.Get(!b) == s.receivedTerm.Get(!b);
      TermAsVotesOk(cfg, h, s1, sender, b);
    }
  }

  lemma AddTermOk(cfg: Config, h: History, s: State, sender: nat, b: bool)
    requires NodeInv(cfg, h, s) && Heard(cfg, h, s.epoch, sender, Term(b))
    ensures var s1 := s.(receivedTerm := s.receivedTerm.Add(b, sender));
            NodeInv(cfg, h, s1) &&
            (|s1.receivedTerm.Get(b)| > cfg.net.NumFaulty() ==> DecisionCert(cfg, h, s.epoch, b))
  {
    var s1 := s.(receivedTerm := s.receivedTerm.Add(b, sender));
    assert sender in TermVoters(cfg, h, s.epoch, b);
    assert NodeInv(cfg, h, s1);
    SubsetSize(s1.receivedTerm.Get(b), TermVoters(cfg, h, s.epoch, b) - {cfg.net.ourId});
  }

  /** A `Term` handled as `BVal`, `Aux` and `Conf`. */
  lemma TermAsVotesOk(cfg: Config, h: History, s: State, sender: nat, b: bool)
    requires Settled(cfg, s) && NodeInv(cfg, h, s) && Heard(cfg, h, s.epoch, sender, Term(b))
    ensures NodeOk(cfg, h, TermAsVotes(cfg, s, sender, b))
    decreases |s.incomingQueue|, 6, 3
  {
    hide SbvInv, StateInv, OwnTerm, OwnCoin;
    var r := TermAsSbv(cfg, s, sender, b);
    TermAsSbvOk(cfg, h, s, sender, b);
    SbvUpdateOk(cfg, h, s, r);
    HandleSbvbStepOk(cfg, h, s.(sbv := r.state), r.step);
    var r3 := HandleSbvbStep(cfg, s.(sbv := r.state), r.step);
    var h3 := Extend(cfg, h, r3.step.messages);
    TermConfirms(h, h3, s.epoch, r3.state.epoch, sender, b);
    HandleConfOk(cfg, h3, r3.state, sender, {b});
    NodeOkJoin(cfg, h, r3.step, HandleConf(cfg, r3.state, sender, {b}));
  }

  lemma TermAsSbvOk(cfg: Config, h: History, s: State, sender: nat, b: bool)
    requires NodeInv(cfg, h, s) && Heard(cfg, h, s.epoch, sender, Term(b))
    ensures SbvOk(cfg, h, s.epoch, TermAsSbv(cfg, s, sender, b))
  {
    var r1 := Sbv.HandleBval(cfg.net, s.sbv, sender, b);
    var h1 := ExtendSbv(cfg, h, s.epoch, r1.step.messages);
    assert sender in BvalVoters(cfg, h, s.epoch, b);
    HandleBvalOk(cfg, h, s.epoch, s.sbv, sender, b);
    assert sender in AuxVoters(cfg, h, s.epoch, b);
    VotersGrow(cfg, h, h1);
    HandleAuxOk(cfg, h1, s.epoch, r1.state, sender, b);
    SbvOkJoin(cfg, h, s.epoch, r1.step, Sbv.HandleAux(cfg.net, r1.state, sender, b));
  }

  lemma TermConfirms(h: History, h': History, epoch: nat, epoch': nat, sender: nat, b: bool)
    requires TermBy(h, epoch, b, sender) && Extends(h, h') && epoch <= epoch'
    ensures Confirmed(h', epoch', {b}, sender)
  {
    var t: nat :| t <= epoch && Said(h, sender, t, Term(b));
    assert Said(h', sender, t, Term(b));
    assert TermBy(h', epoch', b, sender);
  }

  lemma HandleCoinOk(cfg: Config, h: History, s: State, sender: nat, share: Ts.Share)
    requires Settled(cfg, s) && NodeInv(cfg, h, s) && Heard(cfg, h, s.epoch, sender, Coin(share))
    ensures NodeOk(cfg, h, HandleCoin(cfg, s, sender, share))
    decreases |s.incomingQueue|, 6, 4
  {
    if s.coinState.Decided? {
      NodeOkQuiet(cfg, h, HandleCoin(cfg, s, sender, share));
    } else {
      HandleShareOk(cfg, h, s.epoch, s.coinState.ts, sender, share);
      OnCoinStepOk(cfg, h, s, Ts.HandleShare(cfg.net, s.coinState.ts, sender, share));
    }
  }

  lemma OnCoinStepOk(cfg: Config, h: History, s: State, ts: Ts.Outcome)
    requires Settled(cfg, s) && s.coinState.InProgress? && ts.state.doc == s.epoch
    requires NodeInv(cfg, h, s) && TsOk(cfg, h, s.epoch, ts)
    ensures NodeOk(cfg, h, OnCoinStep(cfg, s, ts))
    decreases |s.incomingQueue|, StateWeight(s), 2
  {
    var step := FromCoinStep(s.epoch, ts.step);
    var h1 := Extend(cfg, h, step.messages);
    assert step.messages == CoinMessages(s.epoch, ts.step.messages);
    SbvInvGrows(cfg, h, h1, s.epoch, s.sbv);
    StateInvGrows(cfg, h, h1, s);
    OwnTermGrows(cfg, h, h1, s.epoch, s.decision);
    if ts.step.hasOutput {
      var s1 := s.(coinState := Decided(CoinValue(cfg, s.epoch)));
      assert NodeInv(cfg, h1, s1);
      TryUpdateEpochOk(cfg, h1, s1);
      NodeOkJoin(cfg, h, step, TryUpdateEpoch(cfg, s1));
    }
  }

  lemma TryFinishConfRoundOk(cfg: Config, h: History, s: State)
    requires Settled(cfg, s) && NodeInv(cfg, h, s)
    ensures NodeOk(cfg, h, TryFinishConfRound(cfg, s))
    decreases |s.incomingQueue|, StateWeight(s), 3
  {
    if s.confValues.None? || CountConf(s) < cfg.net.NumCorrect() || s.coinState.Decided? {
      NodeOkQuiet(cfg, h, TryFinishConfRound(cfg, s));
    } else {
      ConfRoundComplete(cfg, h, s);
      SignOk(cfg, h, s.epoch, s.coinState.ts);
      var r1 := OnCoinStep(cfg, s, Ts.Sign(cfg.net, s.coinState.ts));
      OnCoinStepOk(cfg, h, s, Ts.Sign(cfg.net, s.coinState.ts));
      var h1 := Extend(cfg, h, r1.step.messages);
      TryUpdateEpochOk(cfg, h1, r1.state);
      NodeOkJoin(cfg, h, r1.step, TryUpdateEpoch(cfg, r1.state));
    }
  }

  lemma ConfRoundComplete(cfg: Config, h: History, s: State)
    requires NodeInv(cfg, h, s) && CountConf(s) >= cfg.net.NumCorrect()
    ensures ConfRoundDone(cfg, h, s.epoch)
  {
    var vals := s.sbv.binValues;
    forall b | b in vals ensures Believed(cfg, h, s.epoch, b) {
      SubsetSize(s.sbv.receivedBval.Get(b), BvalVoters(cfg, h, s.epoch, b));
    }
    forall id | id in CountedConfs(s) ensures id in ConfVoters(cfg, h, s.epoch, vals) {
      assert Confirmed(h, s.epoch, s.receivedConf[id], id);
    }
    SubsetSize(CountedConfs(s), ConfVoters(cfg, h, s.epoch, vals));
    assert ConfRound(cfg, h, s.epoch, vals);
  }

  // ----- Entry points -----

  /** What a node may be sent: anything, but under the sender's own number. */
  lemma ReceiveOk(cfg: Config, h: History, h': History, s: State)
    requires NodeInv(cfg, h, s) && Extends(h, h')
    requires forall m :: !NewOwn(cfg, h, h', m)
    ensures NodeInv(cfg, h', s)
  {
    SbvInvGrows(cfg, h, h', s.epoch, s.sbv);
    StateInvGrows(cfg, h, h', s);
    OwnTermGrows(cfg, h, h', s.epoch, s.decision);
    OwnCoinGrows(cfg, h, h');
  }

  lemma ProposeOk(cfg: Config, h: History, s: State, input: bool)
    requires Settled(cfg, s) && NodeInv(cfg, h, s) && input in h.proposed
    ensures NodeOk(cfg, h, Propose(cfg, s, input))
  {
    if !CanPropose(s) {
      NodeOkQuiet(cfg, h, Propose(cfg, s, input));
    } else {
      var s1 := s.(estimated := Some(input));
      var r := Sbv.SendBval(cfg.net, s.sbv, input);
      assert NodeInv(cfg, h, s1);
      SendBvalOk(cfg, h, s.epoch, s.sbv, input);
      SbvUpdateOk(cfg, h, s1, r);
      HandleSbvbStepOk(cfg, h, s1.(sbv := r.state), r.step);
      assert s1.(sbv := r.state) == s.(estimated := Some(input), sbv := r.state);
    }
  }

  lemma HandleMessageOk(cfg: Config, h: History, s: State, sender: nat, msg: Message)
    requires Settled(cfg, s) && NodeInv(cfg, h, s)
    requires sender < cfg.net.n && sender != cfg.net.ourId && (sender, msg) in h.heard
    ensures NodeOk(cfg, h, HandleMessage(cfg, s, sender, msg))
  {
    hide NodeInv;
    var r := HandleMessage(cfg, s, sender, msg);
    if s.decision.Some? || (msg.epoch < s.epoch && msg.content.CanExpire()) {
      NodeOkQuiet(cfg, h, r);
    } else if msg.epoch > s.epoch + MAX_FUTURE_EPOCHS {
      NodeOkQuiet(cfg, h, r);
    } else if msg.epoch > s.epoch {
      EnqueueOk(cfg, h, s, sender, msg);
      NodeOkQuiet(cfg, h, r);
    } else {
      assert Said(h, sender, msg.epoch, msg.content);
      HandleContentOk(cfg, h, s, sender, msg.content);
    }
  }

  lemma EnqueueOk(cfg: Config, h: History, s: State, sender: nat, msg: Message)
    requires NodeInv(cfg, h, s)
    requires sender != cfg.net.ourId && (sender, msg) in h.heard
    ensures NodeInv(cfg, h, Enqueue(s, sender, msg).state)
  {
    hide SbvInv, OwnTerm, OwnCoin;
    var s' := Enqueue(s, sender, msg).state;
    forall e: nat, id, c | e in s'.incomingQueue && id in s'.incomingQueue[e] && c in s'.incomingQueue[e][id].Contents()
      ensures Said(h, id, e, c) && id != cfg.net.ourId
    {
      if e == msg.epoch && id == sender {
        var atEpoch: Received := if e in s.incomingQueue then s.incomingQueue[e] else map[];
        var before := if id in atEpoch then atEpoch[id] else NOTHING_RECEIVED;
        InsertContents(before, msg.content, c);
      }
    }
  }

  /** Inserting adds nothing but the inserted content. */
  lemma InsertContents(before: ReceivedMessages, content: Content, c: Content)
    requires c in before.Insert(content).0.Contents()
    ensures c == content || c in before.Contents()
  {
    hide ReceivedMessages.Contents;
    before.ContentsAreRecorded(c);
    before.Insert(content).0.ContentsAreRecorded(c);
  }
}
