/** What a validator notes as sent is among the messages that its calls return. */
module BinaryAgreementSends {
  import opened Options
  import opened Quorums
  import opened BoolMultimaps
  import opened BinaryAgreementSpec
  import opened BinaryAgreementRecords
  import opened BinaryAgreementProgress
  import Sbv = SbvSpec
  import Ts = ThresholdSignSpec

  // ----- What is noted as sent -----

  predicate HasReleased(coin: CoinState) {
    coin.Decided? || coin.ts.hadInput
  }

  /** The state of a node that has not decided says that it has sent this in its current epoch. */
  ghost predicate NotesSent(cfg: Config, s: State, m: Message) {
    && s.decision.None? && m.epoch == s.epoch
    && match m.content
       case SbvBroadcast(BVal(b)) => b in s.sbv.sentBval
       case SbvBroadcast(Aux(b)) =>
         cfg.net.ourId in s.sbv.receivedAux.Get(b) && cfg.net.ourId !in s.receivedTerm.Get(b)
       case Conf(vals) => s.coinState.InProgress? && s.confValues == Some(vals)
       case Coin(share) =>
         s.epoch % 3 == 2 && share == Ts.Share(cfg.net.ourId, s.epoch) && HasReleased(s.coinState)
       case Term(_) => false
  }

  ghost predicate Terminates(messages: seq<Message>, b: bool) {
    exists e :: Message(e, Term(b)) in messages
  }

  /** Whatever is noted as sent after a call was so before, or is returned; and so is a decision. */
  ghost predicate Sends(cfg: Config, s: State, r: Outcome) {
    cfg.net.IsValidator() ==>
      && (forall m :: NotesSent(cfg, r.state, m) ==> NotesSent(cfg, s, m) || m in r.step.messages)
      && (s.decision.None? && r.state.decision.Some? ==> Terminates(r.step.messages, r.state.decision.value))
      && (s.decision.Some? ==> r.state.decision == s.decision)
  }

  lemma SendsTwice(cfg: Config, s: State, r1: Outcome, r2: Outcome)
    requires Sends(cfg, s, r1) && Sends(cfg, r1.state, r2)
    ensures Sends(cfg, s, Outcome(r2.state, r1.step.Join(r2.step)))
  {
    hide NotesSent;
    if r1.state.decision.Some? && s.decision.None? && cfg.net.IsValidator() {
      var b := r1.state.decision.value;
      var e :| Message(e, Term(b)) in r1.step.messages;
      assert Message(e, Term(b)) in r1.step.Join(r2.step).messages;
    }
    if r2.state.decision.Some? && r1.state.decision.None? && cfg.net.IsValidator() {
      var b := r2.state.decision.value;
      var e :| Message(e, Term(b)) in r2.step.messages;
      assert Message(e, Term(b)) in r1.step.Join(r2.step).messages;
    }
  }

  /** A node that has decided sends nothing that would be noted. */
  lemma DecidedSends(cfg: Config, s: State, r: Outcome)
    requires s.decision.Some? && r.state.decision == s.decision
    ensures Sends(cfg, s, r)
  {
  }

  lemma SendsNothing(cfg: Config, s: State, st: Step)
    ensures Sends(cfg, s, Outcome(s, st))
  {
  }

  // ----- Synchronized BV Broadcast and the coin -----

  ghost predicate SbvSends(net: NetworkInfo, s: Sbv.State, r: Sbv.Outcome) {
    net.IsValidator() ==>
      && (forall b :: b in r.state.sentBval ==> b in s.sentBval || Sbv.BVal(b) in r.step.messages)
      && (forall b :: net.ourId in r.state.receivedAux.Get(b) ==>
            net.ourId in s.receivedAux.Get(b) || Sbv.Aux(b) in r.step.messages)
  }

  lemma SbvSendsTwice(net: NetworkInfo, s: Sbv.State, r1: Sbv.Outcome, r2: Sbv.Outcome)
    requires SbvSends(net, s, r1) && SbvSends(net, r1.state, r2)
    ensures SbvSends(net, s, Sbv.Outcome(r2.state, r1.step.Join(r2.step)))
  {
  }

  lemma HandleAuxSends(net: NetworkInfo, s: Sbv.State, sender: nat, b: bool)
    requires sender != net.ourId
    ensures SbvSends(net, s, Sbv.HandleAux(net, s, sender, b))
  {
    AddOnly(s.receivedAux, b, sender);
  }

  lemma AddOnly(m: BoolMultimap, b: bool, id: nat)
    ensures forall v, i :: i in m.Add(b, id).Get(v) <==> i in m.Get(v) || (v == b && i == id)
  {
    forall v, i ensures i in m.Add(b, id).Get(v) <==> i in m.Get(v) || (v == b && i == id) {
      assert v == b || v == !b;
    }
  }

  lemma BelieveInSends(net: NetworkInfo, s: Sbv.State, b: bool)
    ensures SbvSends(net, s, Sbv.BelieveIn(net, s, b))
  {
    AddOnly(s.receivedAux, b, net.ourId);
  }

  lemma SendBvalSends(net: NetworkInfo, s: Sbv.State, b: bool)
    ensures SbvSends(net, s, Sbv.SendBval(net, s, b))
    decreases Sbv.Unsent(s, b), 0
  {
    if b !in s.sentBval {
      var s1 := s.(sentBval := s.sentBval + {b});
      if net.IsValidator() {
        HandleBvalSends(net, s1, net.ourId, b);
      }
      hide Sbv.HandleBval;
    }
  }

  lemma HandleBvalSends(net: NetworkInfo, s: Sbv.State, sender: nat, b: bool)
    ensures SbvSends(net, s, Sbv.HandleBval(net, s, sender, b))
    decreases Sbv.Unsent(s, b), 1
  {
    if sender !in s.receivedBval.Get(b) {
      var s1 := s.(receivedBval := s.receivedBval.Add(b, sender));
      var count := |s1.receivedBval.Get(b)|;
      var r1 := if count == 2 * net.NumFaulty() + 1 then Sbv.BelieveIn(net, s1, b) else Sbv.Outcome(s1, Sbv.NO_STEP);
      BelieveInSends(net, s1, b);
      if count == net.NumFaulty() + 1 {
        SbvSameSent(net, s1, b);
        SendBvalSends(net, r1.state, b);
        SbvSendsTwice(net, s1, r1, Sbv.SendBval(net, r1.state, b));
      }
      hide Sbv.BelieveIn, Sbv.SendBval;
    }
  }

  lemma SbvIsSent(cfg: Config, s: State, r: Sbv.Outcome)
    requires SbvSends(cfg.net, s.sbv, r)
    ensures Sends(cfg, s, Outcome(s.(sbv := r.state), FromSbvStep(s.epoch, r.step)))
  {
    if cfg.net.IsValidator() {
      var t, step := s.(sbv := r.state), FromSbvStep(s.epoch, r.step);
      forall m | NotesSent(cfg, t, m) ensures NotesSent(cfg, s, m) || m in step.messages {
        if m.content.SbvBroadcast? && m.content.msg in r.step.messages {
          var i: nat :| i < |r.step.messages| && r.step.messages[i] == m.content.msg;
          assert step.messages[i] == m;
        }
      }
    }
  }

  /** Our share is returned when it is released, and it is released before there is a signature. */
  ghost predicate TsSends(net: NetworkInfo, s: Ts.State, r: Ts.Outcome) {
    && r.state.doc == s.doc && (s.hadInput ==> r.state.hadInput)
    && (r.step.hasOutput ==> r.state.hadInput)
    && (net.IsValidator() && r.state.hadInput && !s.hadInput ==> Ts.Share(net.ourId, s.doc) in r.step.messages)
  }

  lemma SignSends(net: NetworkInfo, s: Ts.State)
    ensures TsSends(net, s, Ts.Sign(net, s))
    decreases Ts.Pending(s), 0
  {
    if !s.hadInput {
      var s1 := s.(hadInput := true);
      if net.IsValidator() {
        HandleShareSends(net, s1, net.ourId, Ts.Share(net.ourId, s.doc));
      } else {
        SignatureSends(net, s1);
      }
    }
  }

  lemma SignatureSends(net: NetworkInfo, s: Ts.State)
    ensures TsSends(net, s, Ts.TryOutput(net, s))
    decreases Ts.Pending(s), 1
  {
    if Ts.HasEnough(net, s) {
      SignSends(net, s.(terminated := true));
    }
  }

  lemma HandleShareSends(net: NetworkInfo, s: Ts.State, sender: nat, share: Ts.Share)
    requires sender < net.n
    ensures TsSends(net, s, Ts.HandleShare(net, s, sender, share))
    decreases Ts.Pending(s), 2
  {
    if !s.terminated && Ts.IsShareValid(s, sender, share) {
      SignatureSends(net, s.(receivedShares := s.receivedShares[sender := share]));
    }
  }

  lemma CoinIsSent(cfg: Config, s: State, ts: Ts.Outcome)
    requires s.coinState.InProgress? && s.coinState.ts.doc == s.epoch && TsSends(cfg.net, s.coinState.ts, ts)
    ensures Sends(cfg, s, Outcome(AfterCoin(cfg, s, ts), FromCoinStep(s.epoch, ts.step)))
  {
    if cfg.net.IsValidator() {
      var t, step := AfterCoin(cfg, s, ts), FromCoinStep(s.epoch, ts.step);
      forall m | NotesSent(cfg, t, m) ensures NotesSent(cfg, s, m) || m in step.messages {
        if m.content.Coin? && m.content.share in ts.step.messages {
          var i: nat :| i < |ts.step.messages| && ts.step.messages[i] == m.content.share;
          assert step.messages[i] == m;
        }
      }
    }
  }

  // ----- The handlers -----

  lemma TryUpdateEpochSends(cfg: Config, s: State, except: Option<(nat, bool)>)
    requires Valid(cfg, s) && LiveBut(cfg, s, except)
    ensures Sends(cfg, s, TryUpdateEpoch(cfg, s))
    decreases |s.incomingQueue|, FinishWeight(s), 1
  {
    hide IsLive, Sends;
    if !CanFinish(s) {
      SendsNothing(cfg, s, NO_STEP);
    } else {
      var coin, vals := s.coinState.value, s.confValues.value;
      if Definite(vals) == Some(coin) {
        DecideSends(cfg, s, coin);
        assert TryUpdateEpoch(cfg, s) == Decide(cfg, s, coin);
      } else {
        var b := if Definite(vals).Some? then Definite(vals).value else coin;
        LiveFromOthers(cfg, s, [], except);
        UpdateEpochSends(cfg, s, b);
        assert TryUpdateEpoch(cfg, s) == UpdateEpoch(cfg, s, b);
      }
    }
  }

  lemma DecideSends(cfg: Config, s: State, b: bool)
    requires Valid(cfg, if s.decision.None? then s.(decision := Some(b)) else s)
    ensures Sends(cfg, s, Decide(cfg, s, b))
  {
    var r := Decide(cfg, s, b);
    if s.decision.None? && cfg.net.IsValidator() {
      assert r.step.messages[0] == Message(s.epoch + 1, Term(b));
    }
  }

  lemma UpdateEpochSends(cfg: Config, s: State, b: bool)
    requires Valid(cfg, s) && s.decision.None? && FromOthers(cfg, s)
    ensures Sends(cfg, s, UpdateEpoch(cfg, s, b))
    decreases |s.incomingQueue|, Distance(s.epoch + 1, b) + 1, 10
  {
    hide Live, Valid, FromOthers, Sends;
    StartEpochSends(cfg, s, b);
    StartEpochLive(cfg, s, b);
    var r1 := StartEpoch(cfg, s, b);
    DrainQueueSends(cfg, r1.state);
    SendsTwice(cfg, s, r1, DrainQueue(cfg, r1.state));
  }

  lemma StartEpochSends(cfg: Config, s: State, b: bool)
    requires Valid(cfg, s) && s.decision.None? && FromOthers(cfg, s)
    ensures Sends(cfg, s, StartEpoch(cfg, s, b))
    decreases |s.incomingQueue|, Distance(s.epoch + 1, b) + 1, 9
  {
    hide IsLive, Valid, StepWeight, Distance, FromOthers, Sends, NotesSent;
    var (s1, st) := EnterEpoch(cfg, s, b);
    EnterEpochLive(cfg, s, b);
    EnterEpochSends(cfg, s, b);
    HandleSbvbStepSends(cfg, s, s1, st, None);
  }

  /** Nothing is noted as sent in a new epoch but our estimate. */
  lemma EnterEpochSends(cfg: Config, s: State, b: bool)
    requires Valid(cfg, s) && s.decision.None?
    ensures var (s1, st) := EnterEpoch(cfg, s, b); Sends(cfg, s, Outcome(s1, FromSbvStep(s1.epoch, st)))
  {
    hide Sbv.SendBval, Sends;
    var s1 := NextEpoch(s, b);
    SendBvalSends(cfg.net, s1.sbv, b);
    var r := Sbv.SendBval(cfg.net, s1.sbv, b);
    SbvIsSent(cfg, s1, r);
    NothingSentYet(cfg, s, b);
    SendsTwice(cfg, s, Outcome(s1, NO_STEP), Outcome(s1.(sbv := r.state), FromSbvStep(s1.epoch, r.step)));
    var step := FromSbvStep(s1.epoch, r.step);
    assert NO_STEP.Join(step) == step;
  }

  lemma NothingSentYet(cfg: Config, s: State, b: bool)
    requires s.decision.None?
    ensures Sends(cfg, s, Outcome(NextEpoch(s, b), NO_STEP))
  {
    var s1 := NextEpoch(s, b);
    assert forall v :: s1.sbv.receivedAux.Get(v) == s1.receivedTerm.Get(v);
  }

  lemma DrainQueueSends(cfg: Config, s: State)
    requires Settled(cfg, s) && Live(cfg, s)
    ensures Sends(cfg, s, DrainQueue(cfg, s))
    decreases |s.incomingQueue|, 0, 9
  {
    if s.decision.Some? {
      DecidedSends(cfg, s, DrainQueue(cfg, s));
    } else if s.epoch !in s.incomingQueue {
      SendsNothing(cfg, s, NO_STEP);
    } else {
      var received := s.incomingQueue[s.epoch];
      RemoveKey(s.incomingQueue, s.epoch);
      FlattenSenders(received, cfg.net.n);
      FlattenFromOthers(received, cfg.net.n, cfg.net.ourId);
      DequeuedLive(cfg, s);
      hide Live, Flatten;
      HandleQueuedSends(cfg, Dequeue(s), s.epoch, Flatten(received, cfg.net.n));
      SendsFromDequeued(cfg, s, DrainQueue(cfg, s));
    }
  }

  lemma SendsFromDequeued(cfg: Config, s: State, r: Outcome)
    requires Sends(cfg, Dequeue(s), r)
    ensures Sends(cfg, s, r)
  {
    assert forall m :: NotesSent(cfg, Dequeue(s), m) ==> NotesSent(cfg, s, m);
  }

  lemma HandleQueuedSends(cfg: Config, s: State, epoch: nat, queued: seq<(nat, Content)>)
    requires Settled(cfg, s) && Live(cfg, s)
    requires forall i :: 0 <= i < |queued| ==> queued[i].0 < cfg.net.n
    requires forall i :: 0 <= i < |queued| ==> queued[i].0 != cfg.net.ourId
    ensures Sends(cfg, s, HandleQueued(cfg, s, epoch, queued))
    decreases |s.incomingQueue|, 7, |queued|
  {
    hide Live, Settled, Sends;
    if queued == [] {
      SendsNothing(cfg, s, NO_STEP);
    } else {
      HandleContentSends(cfg, s, queued[0].0, queued[0].1);
      var r := HandleContent(cfg, s, queued[0].0, queued[0].1);
      if r.state.decision.None? && r.state.epoch <= epoch {
        HandleContentLive(cfg, s, queued[0].0, queued[0].1);
        HandleQueuedSends(cfg, r.state, epoch, queued[1..]);
        SendsTwice(cfg, s, r, HandleQueued(cfg, r.state, epoch, queued[1..]));
      }
    }
  }

  lemma HandleContentSends(cfg: Config, s: State, sender: nat, content: Content)
    requires Settled(cfg, s) && Live(cfg, s) && sender < cfg.net.n && sender != cfg.net.ourId
    ensures Sends(cfg, s, HandleContent(cfg, s, sender, content))
    decreases |s.incomingQueue|, ContentWeight(s, content), 5
  {
    hide IsLive, Sends;
    match content
    case SbvBroadcast(msg) => HandleSbvBroadcastSends(cfg, s, sender, msg);
    case Conf(vals) =>
      OneMoreConf(cfg, s, sender, vals, None);
      HandleConfSends(cfg, s, sender, vals, None);
    case Term(b) => HandleTermSends(cfg, s, sender, b);
    case Coin(share) => HandleCoinSends(cfg, s, sender, share);
  }

  lemma HandleSbvBroadcastSends(cfg: Config, s: State, sender: nat, msg: Sbv.Message)
    requires Settled(cfg, s) && Live(cfg, s) && sender < cfg.net.n && sender != cfg.net.ourId
    ensures Sends(cfg, s, HandleSbvBroadcast(cfg, s, sender, msg))
    decreases |s.incomingQueue|, 6, 4
  {
    hide IsLive, Sends, Sbv.HandleBval, Sbv.HandleAux;
    if s.decision.Some? {
      DecidedSends(cfg, s, HandleSbvBroadcast(cfg, s, sender, msg));
    } else {
      var r := Sbv.HandleMessage(cfg.net, s.sbv, sender, msg);
      match msg {
        case BVal(b) =>
          HandleBvalSends(cfg.net, s.sbv, sender, b);
          SbvBvalLive(cfg, s, sender, b, None);
        case Aux(b) =>
          HandleAuxSends(cfg.net, s.sbv, sender, b);
          SbvAuxLive(cfg, s, [], sender, b, None);
          assert [] + r.step.output == r.step.output;
      }
      hide Sbv.HandleMessage;
      SbvIsSent(cfg, s, r);
      HandleSbvbStepSends(cfg, s, s.(sbv := r.state), r.step, None);
    }
  }

  /** The messages of the broadcast are returned with what taking up its output sends. */
  lemma HandleSbvbStepSends(cfg: Config, s: State, t: State, st: Sbv.Step, except: Option<(nat, bool)>)
    requires Settled(cfg, t) && (t.decision.None? ==> IsLive(cfg, t, st.output, except))
    requires Sends(cfg, s, Outcome(t, FromSbvStep(t.epoch, st)))
    ensures Sends(cfg, s, HandleSbvbStep(cfg, t, st))
    decreases |t.incomingQueue|, StepWeight(t, st), 8
  {
    var step := FromSbvStep(t.epoch, st);
    if t.confValues.None? && st.output != [] {
      if t.decision.Some? {
        hide FromSbvStep;
        DecidedSends(cfg, t, TakeUp(cfg, t, st.output[0]));
      } else if t.coinState.Decided? {
        var t1 := t.(confValues := Some(st.output[0]));
        TakesUp(cfg, t, st.output, except);
        hide IsLive, Sends, FromSbvStep;
        TryUpdateEpochSends(cfg, t1, except);
        KnownCoinNeedsNoConf(cfg, t, t1, TryUpdateEpoch(cfg, t1));
      } else {
        hide IsLive, Sends, FromSbvStep;
        SendConfSends(cfg, t, st.output, except);
      }
      SendsTwice(cfg, s, Outcome(t, step), TakeUp(cfg, t, st.output[0]));
    }
  }

  function TakeUp(cfg: Config, s: State, vals: set<bool>): Outcome
    requires Settled(cfg, s) && s.confValues.None?
  {
    if s.coinState.Decided? then TryUpdateEpoch(cfg, s.(confValues := Some(vals))) else SendConf(cfg, s, vals)
  }

  /** When the coin is known, candidates are not confirmed. */
  lemma KnownCoinNeedsNoConf(cfg: Config, s: State, t: State, r: Outcome)
    requires t == s.(confValues := t.confValues) && s.coinState.Decided? && Sends(cfg, t, r)
    ensures Sends(cfg, s, r)
  {
    assert forall m :: NotesSent(cfg, t, m) ==> NotesSent(cfg, s, m);
  }

  lemma SendConfSends(cfg: Config, s: State, output: seq<set<bool>>, except: Option<(nat, bool)>)
    requires Settled(cfg, s) && s.coinState.InProgress? && s.decision.None? && s.confValues.None?
    requires output != [] && IsLive(cfg, s, output, except)
    ensures Sends(cfg, s, SendConf(cfg, s, output[0]))
    decreases |s.incomingQueue|, Weight(s.epoch, output[0]), 7
  {
    hide IsLive, Sends;
    var vals := output[0];
    var s1 := s.(confValues := Some(vals));
    TakesUp(cfg, s, output, except);
    if cfg.net.IsValidator() {
      HandleConfSends(cfg, s1, cfg.net.ourId, vals, except);
      var step := Step([Message(s.epoch, Conf(vals))], [], []);
      ConfIsSent(cfg, s, vals, step);
      SendsTwice(cfg, s, Outcome(s1, step), HandleConf(cfg, s1, cfg.net.ourId, vals));
    } else {
      ObserversSendNothing(cfg, s, SendConf(cfg, s, vals));
    }
  }

  lemma ConfIsSent(cfg: Config, s: State, vals: set<bool>, step: Step)
    requires step.messages == [Message(s.epoch, Conf(vals))]
    ensures Sends(cfg, s, Outcome(s.(confValues := Some(vals)), step))
  {
    assert step.messages[0] == Message(s.epoch, Conf(vals));
    var t := s.(confValues := Some(vals));
    forall m | NotesSent(cfg, t, m) ensures NotesSent(cfg, s, m) || m in step.messages {
    }
  }

  lemma ObserversSendNothing(cfg: Config, s: State, r: Outcome)
    requires !cfg.net.IsValidator()
    ensures Sends(cfg, s, r)
  {
  }

  lemma HandleConfSends(cfg: Config, s: State, sender: nat, vals: set<bool>, except: Option<(nat, bool)>)
    requires Settled(cfg, s) && LiveBut(cfg, s.(receivedConf := s.receivedConf[sender := vals]), except)
    ensures Sends(cfg, s, HandleConf(cfg, s, sender, vals))
    decreases |s.incomingQueue|, StateWeight(s), 4
  {
    hide IsLive;
    var s1 := s.(receivedConf := s.receivedConf[sender := vals]);
    TryFinishConfRoundSends(cfg, s1, except);
    assert forall m :: NotesSent(cfg, s1, m) ==> NotesSent(cfg, s, m);
  }

  lemma HandleTermSends(cfg: Config, s: State, sender: nat, b: bool)
    requires Settled(cfg, s) && Live(cfg, s) && sender < cfg.net.n && sender != cfg.net.ourId
    ensures Sends(cfg, s, HandleTerm(cfg, s, sender, b))
    decreases |s.incomingQueue|, 6, 4
  {
    hide Sends;
    if s.decision.Some? {
      DecidedSends(cfg, s, HandleTerm(cfg, s, sender, b));
    } else {
      var s1 := s.(receivedTerm := s.receivedTerm.Add(b, sender));
      OneMoreTerm(cfg, s, sender, b);
      hide IsLive;
      if |s1.receivedTerm.Get(b)| > cfg.net.NumFaulty() {
        DecideSends(cfg, s1, b);
      } else {
        assert s1.receivedTerm.Get(!b) == s.receivedTerm.Get(!b);
        TermAsVotesSends(cfg, s1, sender, b);
      }
      SendsWithoutTerm(cfg, s, sender, b, HandleTerm(cfg, s, sender, b));
    }
  }

  lemma SendsWithoutTerm(cfg: Config, s: State, sender: nat, b: bool, r: Outcome)
    requires Sends(cfg, s.(receivedTerm := s.receivedTerm.Add(b, sender)), r) && sender != cfg.net.ourId
    ensures Sends(cfg, s, r)
  {
    AddOnly(s.receivedTerm, b, sender);
    var s1 := s.(receivedTerm := s.receivedTerm.Add(b, sender));
    assert forall m :: NotesSent(cfg, s1, m) ==> NotesSent(cfg, s, m);
  }

  lemma TermAsVotesSends(cfg: Config, s: State, sender: nat, b: bool)
    requires Settled(cfg, s) && sender < cfg.net.n && s.decision.None? && sender != cfg.net.ourId
    requires IsLive(cfg, s, [], Some((sender, b)))
    ensures Sends(cfg, s, TermAsVotes(cfg, s, sender, b))
    decreases |s.incomingQueue|, 6, 3
  {
    hide IsLive, KeepsAll, Sends;
    var sbv := TermAsSbv(cfg, s, sender, b);
    var s1 := s.(sbv := sbv.state);
    TermAsSbvLive(cfg, s, sender, b);
    TermAsSbvSends(cfg, s, sender, b);
    HandleSbvbStepSends(cfg, s, s1, sbv.step, Some((sender, b)));
    HandleSbvbStepLive(cfg, s1, sbv.step, Some((sender, b)));
    var r := HandleSbvbStep(cfg, s1, sbv.step);
    TermAsSbvKeeps(cfg, s, sender, b);
    HandleSbvbStepKeeps(cfg, s1, sbv.step);
    TermVotes(cfg, s1, r.state, sender, b);
    HandleConfSends(cfg, r.state, sender, {b}, None);
    SendsTwice(cfg, s, r, HandleConf(cfg, r.state, sender, {b}));
  }

  lemma TermAsSbvSends(cfg: Config, s: State, sender: nat, b: bool)
    requires sender != cfg.net.ourId
    ensures var r := TermAsSbv(cfg, s, sender, b);
            Sends(cfg, s, Outcome(s.(sbv := r.state), FromSbvStep(s.epoch, r.step)))
  {
    hide Sbv.HandleBval, Sbv.HandleAux, Sends;
    var r1 := Sbv.HandleBval(cfg.net, s.sbv, sender, b);
    HandleBvalSends(cfg.net, s.sbv, sender, b);
    HandleAuxSends(cfg.net, r1.state, sender, b);
    SbvSendsTwice(cfg.net, s.sbv, r1, Sbv.HandleAux(cfg.net, r1.state, sender, b));
    SbvIsSent(cfg, s, TermAsSbv(cfg, s, sender, b));
  }

  lemma HandleCoinSends(cfg: Config, s: State, sender: nat, share: Ts.Share)
    requires Settled(cfg, s) && Live(cfg, s) && sender < cfg.net.n && sender != cfg.net.ourId
    ensures Sends(cfg, s, HandleCoin(cfg, s, sender, share))
    decreases |s.incomingQueue|, 6, 4
  {
    if s.decision.Some? {
      DecidedSends(cfg, s, HandleCoin(cfg, s, sender, share));
    } else if s.coinState.Decided? {
      SendsNothing(cfg, s, NO_STEP);
    } else {
      var ts := Ts.HandleShare(cfg.net, s.coinState.ts, sender, share);
      ShareLive(cfg, s.coinState.ts, sender, share);
      CoinUpdateLive(cfg, s, ts, None);
      hide IsLive, Sends;
      HandleShareSends(cfg.net, s.coinState.ts, sender, share);
      OnCoinStepSends(cfg, s, ts, None);
    }
  }

  lemma OnCoinStepSends(cfg: Config, s: State, ts: Ts.Outcome, except: Option<(nat, bool)>)
    requires Settled(cfg, s) && s.coinState.InProgress? && ts.state.doc == s.epoch
    requires LiveBut(cfg, AfterCoin(cfg, s, ts), except) && TsSends(cfg.net, s.coinState.ts, ts)
    ensures Sends(cfg, s, OnCoinStep(cfg, s, ts))
    decreases |s.incomingQueue|, StateWeight(s), 2
  {
    hide IsLive, Sends;
    var step := FromCoinStep(s.epoch, ts.step);
    var s1 := AfterCoin(cfg, s, ts);
    CoinIsSent(cfg, s, ts);
    if ts.step.hasOutput {
      TryUpdateEpochSends(cfg, s1, except);
      SendsTwice(cfg, s, Outcome(s1, step), TryUpdateEpoch(cfg, s1));
    }
  }

  lemma TryFinishConfRoundSends(cfg: Config, s: State, except: Option<(nat, bool)>)
    requires Settled(cfg, s) && LiveBut(cfg, s, except)
    ensures Sends(cfg, s, TryFinishConfRound(cfg, s))
    decreases |s.incomingQueue|, StateWeight(s), 3
  {
    if s.decision.Some? {
      DecidedSends(cfg, s, TryFinishConfRound(cfg, s));
    } else if s.confValues.None? || CountConf(s) < cfg.net.NumCorrect() || s.coinState.Decided? {
      SendsNothing(cfg, s, NO_STEP);
    } else {
      var ts := Ts.Sign(cfg.net, s.coinState.ts);
      SignLive(cfg, s.coinState.ts);
      CoinUpdateLive(cfg, s, ts, except);
      hide IsLive, Sends;
      SignSends(cfg.net, s.coinState.ts);
      OnCoinStepSends(cfg, s, ts, except);
      OnCoinStepLive(cfg, s, ts, except);
      var r := OnCoinStep(cfg, s, ts);
      TryUpdateEpochSends(cfg, r.state, if r.state.epoch == s.epoch then except else None);
      SendsTwice(cfg, s, r, TryUpdateEpoch(cfg, r.state));
    }
  }

  // ----- Entry points -----

  lemma ProposeSends(cfg: Config, s: State, input: bool)
    requires Settled(cfg, s) && Live(cfg, s)
    ensures Sends(cfg, s, Propose(cfg, s, input))
  {
    hide Sends;
    if s.decision.Some? {
      DecidedSends(cfg, s, Propose(cfg, s, input));
    } else if !CanPropose(s) {
      SendsNothing(cfg, s, NO_STEP);
    } else {
      hide Sbv.SendBval, IsLive;
      var r := Sbv.SendBval(cfg.net, s.sbv, input);
      var s1 := s.(estimated := Some(input), sbv := r.state);
      SendBvalLive(cfg, s, input);
      NewEstimate(cfg, s.(sbv := r.state), r.step.output, input);
      SendBvalSends(cfg.net, s.sbv, input);
      SbvIsSent(cfg, s, r);
      EstimateIsNotSent(cfg, s, s.(sbv := r.state), s1, FromSbvStep(s.epoch, r.step));
      HandleSbvbStepSends(cfg, s, s1, r.step, None);
    }
  }

  lemma EstimateIsNotSent(cfg: Config, s: State, t: State, u: State, step: Step)
    requires Sends(cfg, s, Outcome(t, step)) && u == t.(estimated := u.estimated)
    ensures Sends(cfg, s, Outcome(u, step))
  {
    assert forall m :: NotesSent(cfg, u, m) ==> NotesSent(cfg, t, m);
  }

  /** For every message from another node: what is noted as sent is sent. */
  lemma HandleMessageSends(cfg: Config, s: State, sender: nat, msg: Message)
    requires Settled(cfg, s) && Live(cfg, s) && sender < cfg.net.n && sender != cfg.net.ourId
    ensures Sends(cfg, s, HandleMessage(cfg, s, sender, msg))
  {
    hide IsLive, HandleContent, Enqueue, Advances, Sends;
    if s.decision.Some? || (msg.epoch < s.epoch && msg.content.CanExpire()) {
      SendsNothing(cfg, s, NO_STEP);
    } else if msg.epoch > s.epoch + MAX_FUTURE_EPOCHS {
      SendsNothing(cfg, s, Step([], [], [Fault(sender, AgreementEpoch)]));
    } else if msg.epoch > s.epoch {
      EnqueueSends(cfg, s, sender, msg);
    } else {
      HandleContentSends(cfg, s, sender, msg.content);
    }
  }

  lemma EnqueueSends(cfg: Config, s: State, sender: nat, msg: Message)
    ensures Sends(cfg, s, Enqueue(s, sender, msg))
  {
    var t := Enqueue(s, sender, msg).state;
    assert forall m :: NotesSent(cfg, t, m) ==> NotesSent(cfg, s, m);
  }
}
