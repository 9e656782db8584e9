/** When a node of Binary Agreement takes the next step: the thresholds of the `Conf` round and of
    termination, and how an epoch ends. */
module BinaryAgreementRounds {
  import opened Options
  import opened Quorums
  import opened BoolMultimaps
  import opened BinaryAgreementSpec
  import opened BinaryAgreementRecords
  import opened BinaryAgreementSends
  import Sbv = SbvSpec
  import Ts = ThresholdSignSpec

  /** The coin is known, or our share is out, or the epoch is over. */
  ghost predicate HasMovedOn(s: State, epoch: nat) {
    s.decision.Some? || s.epoch > epoch || s.coinState.Decided? || s.coinState.ts.hadInput
  }

  /** Those who have confirmed nothing but values that we believe in. */
  ghost function Confirmers(conf: map<nat, set<bool>>, believed: set<bool>): set<nat> {
    set id | id in conf && conf[id] <= believed
  }

  /** A `Conf` that is handled while the coin is open. If with it `N - f` nodes have confirmed only
      values that we believe in, we move on, and release our share of the coin if we have not done so
      before. Otherwise nothing is done but to record it. */
  lemma ConfRound(cfg: Config, s: State, sender: nat, vals: set<bool>)
    requires Settled(cfg, s) && s.coinState.InProgress? && s.confValues.Some?
    ensures var r, conf := HandleConf(cfg, s, sender, vals), s.receivedConf[sender := vals];
            if |Confirmers(conf, s.sbv.binValues)| >= cfg.net.n - MaxFaulty(cfg.net.n) then
              && HasMovedOn(r.state, s.epoch)
              && (cfg.net.IsValidator() && !s.coinState.ts.hadInput ==>
                    Message(s.epoch, Coin(Ts.Share(cfg.net.ourId, s.epoch))) in r.step.messages)
            else r == Outcome(s.(receivedConf := conf), NO_STEP)
  {
    var s1 := s.(receivedConf := s.receivedConf[sender := vals]);
    assert Confirmers(s1.receivedConf, s.sbv.binValues) == CountedConfs(s1);
    if CountConf(s1) >= cfg.net.NumCorrect() {
      RoundEnds(cfg, s1);
    }
  }

  /** The same for our own candidates, when they are confirmed. */
  lemma OwnConfRound(cfg: Config, s: State, vals: set<bool>)
    requires Settled(cfg, s) && s.coinState.InProgress? && s.confValues.None? && cfg.net.IsValidator()
    ensures var r, conf := SendConf(cfg, s, vals), s.receivedConf[cfg.net.ourId := vals];
            && Message(s.epoch, Conf(vals)) in r.step.messages
            && if |Confirmers(conf, s.sbv.binValues)| >= cfg.net.n - MaxFaulty(cfg.net.n) then
                 && HasMovedOn(r.state, s.epoch)
                 && (!s.coinState.ts.hadInput ==>
                       Message(s.epoch, Coin(Ts.Share(cfg.net.ourId, s.epoch))) in r.step.messages)
               else r.state == s.(confValues := Some(vals), receivedConf := conf)
  {
    hide HandleConf, HasMovedOn;
    var s1 := s.(confValues := Some(vals));
    ConfRound(cfg, s1, cfg.net.ourId, vals);
    var r := HandleContent(cfg, s1, cfg.net.ourId, Conf(vals));
    assert SendConf(cfg, s, vals) == Outcome(r.state, Step([Message(s.epoch, Conf(vals))], [], []).Join(r.step));
    assert [Message(s.epoch, Conf(vals))][0] == Message(s.epoch, Conf(vals));
  }

  /** Observers confirm nothing, but the others may have done so already. */
  lemma ObserverRound(cfg: Config, s: State, vals: set<bool>)
    requires Settled(cfg, s) && s.coinState.InProgress? && s.confValues.None? && !cfg.net.IsValidator()
    ensures var r := SendConf(cfg, s, vals);
            if |Confirmers(s.receivedConf, s.sbv.binValues)| >= cfg.net.n - MaxFaulty(cfg.net.n) then
              HasMovedOn(r.state, s.epoch)
            else r == Outcome(s.(confValues := Some(vals)), NO_STEP)
  {
    var s1 := s.(confValues := Some(vals));
    assert Confirmers(s1.receivedConf, s.sbv.binValues) == CountedConfs(s1);
    if CountConf(s1) >= cfg.net.NumCorrect() {
      RoundEnds(cfg, s1);
    }
  }

  lemma RoundEnds(cfg: Config, s: State)
    requires Settled(cfg, s) && s.coinState.InProgress? && s.confValues.Some? && CountConf(s) >= cfg.net.NumCorrect()
    ensures var r := TryFinishConfRound(cfg, s);
            && HasMovedOn(r.state, s.epoch)
            && (cfg.net.IsValidator() && !s.coinState.ts.hadInput ==>
                  Message(s.epoch, Coin(Ts.Share(cfg.net.ourId, s.epoch))) in r.step.messages)
  {
    var ts := Ts.Sign(cfg.net, s.coinState.ts);
    SignSends(cfg.net, s.coinState.ts);
    hide CountConf, Ts.Sign;
    var r1 := OnCoinStep(cfg, s, ts);
    SharesAreReturned(cfg, s, ts);
    CoinMovesOn(cfg, s, ts);
    var r2 := TryUpdateEpoch(cfg, r1.state);
    hide OnCoinStep;
    UpdateMovesOn(cfg, r1.state, s.epoch);
  }

  lemma SharesAreReturned(cfg: Config, s: State, ts: Ts.Outcome)
    requires Settled(cfg, s) && s.coinState.InProgress? && ts.state.doc == s.epoch
    ensures forall share :: share in ts.step.messages ==>
              Message(s.epoch, Coin(share)) in OnCoinStep(cfg, s, ts).step.messages
  {
    hide TryUpdateEpoch;
    var step := FromCoinStep(s.epoch, ts.step);
    forall share | share in ts.step.messages ensures Message(s.epoch, Coin(share)) in step.messages {
      var i: nat :| i < |ts.step.messages| && ts.step.messages[i] == share;
      assert step.messages[i] == Message(s.epoch, Coin(share));
    }
  }

  lemma CoinMovesOn(cfg: Config, s: State, ts: Ts.Outcome)
    requires Settled(cfg, s) && s.coinState.InProgress? && ts.state.doc == s.epoch && ts.state.hadInput
    ensures HasMovedOn(OnCoinStep(cfg, s, ts).state, s.epoch)
  {
    if ts.step.hasOutput {
      hide TryUpdateEpoch;
      UpdateMovesOn(cfg, AfterCoin(cfg, s, ts), s.epoch);
    }
  }

  lemma UpdateMovesOn(cfg: Config, s: State, epoch: nat)
    requires Valid(cfg, s) && epoch <= s.epoch && HasMovedOn(s, epoch)
    ensures HasMovedOn(TryUpdateEpoch(cfg, s).state, epoch)
  {
    if CanFinish(s) {
      EpochEnds(cfg, s);
    }
  }

  // ----- The end of an epoch -----

  /** The only candidate, or the coin if there are two. */
  function Estimate(vals: set<bool>, coin: bool): bool {
    if true in vals && false in vals then coin
    else if true in vals then true
    else if false in vals then false
    else coin
  }

  /** The coin is `true`, then `false`, then it is thrown; and so on. */
  function ScheduledCoin(cfg: Config, epoch: nat): bool {
    var r := epoch - epoch / 3 * 3;
    r == 0 || (r == 2 && cfg.coin(epoch))
  }

  /** When the candidates and the coin of an epoch are known: the node decides if the coin is the
      only candidate. Otherwise it goes on to the next epoch, and sends its estimate: the only
      candidate, or the coin if there are two. */
  lemma EpochEnds(cfg: Config, s: State)
    requires Valid(cfg, s) && CanFinish(s)
    ensures var r, coin := TryUpdateEpoch(cfg, s), ScheduledCoin(cfg, s.epoch);
            if s.confValues.value == {coin} then
              && r.state == s.(decision := Some(coin)) && r.step.output == [coin]
              && (cfg.net.IsValidator() ==> r.step.messages == [Message(s.epoch + 1, Term(coin))])
            else
              && r.state.epoch > s.epoch
              && (cfg.net.IsValidator() ==>
                    Message(s.epoch + 1, SbvBroadcast(Sbv.BVal(Estimate(s.confValues.value, coin)))) in r.step.messages)
  {
    var vals, coin := s.confValues.value, s.coinState.value;
    assert coin == ScheduledCoin(cfg, s.epoch);
    if vals == {coin} {
      assert TryUpdateEpoch(cfg, s) == Decide(cfg, s, coin);
    } else {
      var b := if Definite(vals).Some? then Definite(vals).value else coin;
      EstimateIs(vals, coin);
      hide UpdateEpoch;
      EstimateIsReturned(cfg, s, b);
      assert TryUpdateEpoch(cfg, s) == UpdateEpoch(cfg, s, b);
    }
  }

  lemma EstimateIs(vals: set<bool>, coin: bool)
    ensures Estimate(vals, coin) == if Definite(vals).Some? then Definite(vals).value else coin
  {
    if true in vals && false !in vals {
      OnlyOther(vals, false);
    }
    if false in vals && true !in vals {
      OnlyOther(vals, true);
    }
  }

  lemma EstimateIsReturned(cfg: Config, s: State, b: bool)
    requires Valid(cfg, s) && s.decision.None?
    ensures var r := UpdateEpoch(cfg, s, b);
            && r.state.epoch > s.epoch
            && (cfg.net.IsValidator() ==> Message(s.epoch + 1, SbvBroadcast(Sbv.BVal(b))) in r.step.messages)
  {
    hide StartEpoch, DrainQueue;
    EstimateStarts(cfg, s, b);
  }

  lemma EstimateStarts(cfg: Config, s: State, b: bool)
    requires Valid(cfg, s) && s.decision.None?
    ensures var r := StartEpoch(cfg, s, b);
            && r.state.epoch > s.epoch
            && (cfg.net.IsValidator() ==> Message(s.epoch + 1, SbvBroadcast(Sbv.BVal(b))) in r.step.messages)
  {
    hide StartEpoch, EnterEpoch, HandleSbvbStep, Settled, Valid, StepWeight, OutputIsDecision;
    var e := EnterEpoch(cfg, s, b);
    FirstBval(cfg, s, b);
    StartsWith(cfg, s, b);
    BroadcastIsReturned(cfg, e.0, e.1);
  }

  lemma StartsWith(cfg: Config, s: State, b: bool)
    requires Valid(cfg, s) && s.decision.None?
    ensures var e := EnterEpoch(cfg, s, b); StartEpoch(cfg, s, b) == HandleSbvbStep(cfg, e.0, e.1)
  {
    hide EnterEpoch, HandleSbvbStep;
  }

  lemma FirstBval(cfg: Config, s: State, b: bool)
    requires Valid(cfg, s) && s.decision.None?
    ensures cfg.net.IsValidator() ==> Sbv.BVal(b) in EnterEpoch(cfg, s, b).1.messages
  {
    hide Sbv.HandleBval;
    if cfg.net.IsValidator() {
      var sbv := Sbv.Clear(s.receivedTerm);
      var r := Sbv.HandleBval(cfg.net, sbv.(sentBval := sbv.sentBval + {b}), cfg.net.ourId, b);
      assert Sbv.SendBval(cfg.net, sbv, b).step == Sbv.Step([Sbv.BVal(b)], [], []).Join(r.step);
      assert [Sbv.BVal(b)][0] == Sbv.BVal(b);
    }
  }

  lemma BroadcastIsReturned(cfg: Config, s: State, st: Sbv.Step)
    requires Settled(cfg, s)
    ensures forall m :: m in st.messages ==> SbvMessage(s.epoch, m) in HandleSbvbStep(cfg, s, st).step.messages
  {
    hide TryUpdateEpoch, SendConf;
    var step := FromSbvStep(s.epoch, st);
    forall m | m in st.messages ensures SbvMessage(s.epoch, m) in step.messages {
      var i: nat :| i < |st.messages| && st.messages[i] == m;
      assert step.messages[i] == SbvMessage(s.epoch, m);
    }
  }

  // ----- Termination -----

  /** A `Term` that is handled decides exactly if more than `f` nodes have then terminated with this
      value. */
  lemma TermsDecide(cfg: Config, s: State, sender: nat, b: bool)
    requires Settled(cfg, s) && sender < cfg.net.n && s.decision.None?
    ensures var r, terms := HandleTerm(cfg, s, sender, b), s.receivedTerm.Get(b) + {sender};
            if |terms| > MaxFaulty(cfg.net.n) then
              && r.state.decision == Some(b) && r.step.output == [b]
              && (cfg.net.IsValidator() ==> r.step.messages == [Message(s.epoch + 1, Term(b))])
            else r.state.decision.None? ==> r.state.epoch > s.epoch || CountsAsVote(r.state, sender, b)
  {
    hide CountsAsVote, HandleTerm;
    if |s.receivedTerm.Get(b) + {sender}| <= cfg.net.NumFaulty() {
      HandleTermCounts(cfg, s, sender, b);
    } else {
      TermsSuffice(cfg, s, sender, b);
    }
  }

  lemma TermsSuffice(cfg: Config, s: State, sender: nat, b: bool)
    requires Settled(cfg, s) && sender < cfg.net.n && s.decision.None?
    requires |s.receivedTerm.Get(b) + {sender}| > cfg.net.NumFaulty()
    ensures var r := HandleTerm(cfg, s, sender, b);
            && r.state.decision == Some(b) && r.step.output == [b]
            && (cfg.net.IsValidator() ==> r.step.messages == [Message(s.epoch + 1, Term(b))])
  {
    hide TermAsVotes, Advances;
    var s1 := s.(receivedTerm := s.receivedTerm.Add(b, sender));
    assert s1.receivedTerm.Get(b) == s.receivedTerm.Get(b) + {sender};
  }

  lemma HandleTermCounts(cfg: Config, s: State, sender: nat, b: bool)
    requires Settled(cfg, s) && sender < cfg.net.n && s.decision.None?
    requires |s.receivedTerm.Get(b) + {sender}| <= cfg.net.NumFaulty()
    ensures var t := HandleTerm(cfg, s, sender, b).state;
            t.decision.None? && t.epoch == s.epoch ==> CountsAsVote(t, sender, b)
  {
    hide CountsAsVote, TermAsVotes;
    var s1 := s.(receivedTerm := s.receivedTerm.Add(b, sender));
    assert s1.receivedTerm.Get(!b) == s.receivedTerm.Get(!b);
    assert HandleTerm(cfg, s, sender, b) == TermAsVotes(cfg, s1, sender, b);
    TermCounts(cfg, s1, sender, b);
  }

  lemma TermCounts(cfg: Config, s: State, sender: nat, b: bool)
    requires Settled(cfg, s) && sender < cfg.net.n
    ensures var t := TermAsVotes(cfg, s, sender, b).state;
            t.decision.None? && t.epoch == s.epoch ==> CountsAsVote(t, sender, b)
  {
    hide HandleSbvbStep, HandleConf, TermAsSbv, IsKept;
    var sbv := TermAsSbv(cfg, s, sender, b);
    var s1 := s.(sbv := sbv.state);
    TermAsSbvKeeps(cfg, s, sender, b);
    HandleSbvbStepKeeps(cfg, s1, sbv.step);
    var s2 := HandleSbvbStep(cfg, s1, sbv.step).state;
    HandleConfKeeps(cfg, s2, sender, {b});
  }
}
