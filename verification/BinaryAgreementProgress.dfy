/** What a node of Binary Agreement does as soon as it can: no threshold is missed between calls,
    and whatever it notes as sent is among the messages that it returns. */
module BinaryAgreementProgress {
  import opened Options
  import opened Quorums
  import opened BoolMultimaps
  import opened BinaryAgreementSpec
  import opened BinaryAgreementRecords
  import Sbv = SbvSpec
  import SbvThresholds
  import Ts = ThresholdSignSpec

  // ----- Between calls -----

  /** More than `f` shares always yield the coin, and our own share counts when it is released. */
  ghost predicate CoinLive(cfg: Config, ts: Ts.State) {
    && !ts.terminated && |ts.receivedShares| <= cfg.net.NumFaulty()
    && (ts.hadInput && cfg.net.IsValidator() ==> cfg.net.ourId in ts.receivedShares)
  }

  /** Everyone who has terminated counts as a voter, except perhaps this one. */
  ghost predicate TermsVote(s: State, except: Option<(nat, bool)>) {
    forall b, id :: id in s.receivedTerm.Get(b) ==> CountsAsVote(s, id, b) || except == Some((id, b))
  }

  /** Nobody receives messages from itself. */
  ghost predicate FromOthers(cfg: Config, s: State) {
    && (forall b :: cfg.net.ourId !in s.receivedTerm.Get(b))
    && (forall e :: e in s.incomingQueue ==> cfg.net.ourId !in s.incomingQueue[e])
  }

  ghost predicate EstimateSent(s: State) {
    && (s.estimated.Some? ==> s.estimated.value in s.sbv.sentBval)
    && (s.epoch > 0 ==> s.estimated.Some?)
  }

  /** What is true of an undecided node, whatever the broadcast has just output. */
  ghost predicate IsLive(cfg: Config, s: State, output: seq<set<bool>>, except: Option<(nat, bool)>) {
    && SbvThresholds.Complete(cfg.net, s.sbv)
    && (s.sbv.terminated <==> s.confValues.Some? || output != [])
    && (s.confValues.Some? ==> output == [])
    && (s.coinState.InProgress? ==> CoinLive(cfg, s.coinState.ts))
    && (s.confValues.Some? && s.coinState.InProgress? && cfg.net.IsValidator() ==> cfg.net.ourId in s.receivedConf)
    && TermsVote(s, except)
    && FromOthers(cfg, s)
    && EstimateSent(s)
  }

  /** What is true of a node between calls, until it has decided: thresholds are acted upon, the
      output of the broadcast is taken up, and our own messages count. */
  ghost predicate Live(cfg: Config, s: State) {
    s.decision.None? ==> IsLive(cfg, s, [], None)
  }

  ghost predicate LiveBut(cfg: Config, s: State, except: Option<(nat, bool)>) {
    s.decision.None? ==> IsLive(cfg, s, [], except)
  }

  /** After a call that began in `epoch`. In a new epoch, there are no exceptions. */
  ghost predicate LiveSince(cfg: Config, epoch: nat, t: State, except: Option<(nat, bool)>) {
    LiveBut(cfg, t, if t.epoch == epoch then except else None)
  }

  // ----- Synchronized BV Broadcast -----

  /** There is an output when the broadcast terminates, and at no other time. */
  ghost predicate OutputEnds(s: Sbv.State, r: Sbv.Outcome) {
    if s.terminated then r.state.terminated && r.step.output == []
    else r.state.terminated <==> r.step.output != []
  }

  lemma JoinEnds(s: Sbv.State, r1: Sbv.Outcome, r2: Sbv.Outcome)
    requires OutputEnds(s, r1) && OutputEnds(r1.state, r2)
    ensures OutputEnds(s, Sbv.Outcome(r2.state, r1.step.Join(r2.step)))
  {
  }

  lemma SbvAuxEnds(net: NetworkInfo, s: Sbv.State, sender: nat, b: bool)
    ensures OutputEnds(s, Sbv.HandleAux(net, s, sender, b))
  {
  }

  lemma BelieveInEnds(net: NetworkInfo, s: Sbv.State, b: bool)
    ensures OutputEnds(s, Sbv.BelieveIn(net, s, b))
  {
    SbvAuxEnds(net, s.(binValues := s.binValues + {b}), net.ourId, b);
    hide Sbv.HandleAux;
  }

  lemma SendBvalEnds(net: NetworkInfo, s: Sbv.State, b: bool)
    ensures OutputEnds(s, Sbv.SendBval(net, s, b))
    decreases Sbv.Unsent(s, b), 0
  {
    if b !in s.sentBval {
      SbvBvalEnds(net, s.(sentBval := s.sentBval + {b}), net.ourId, b);
    }
    hide Sbv.HandleBval;
  }

  lemma SbvBvalEnds(net: NetworkInfo, s: Sbv.State, sender: nat, b: bool)
    ensures OutputEnds(s, Sbv.HandleBval(net, s, sender, b))
    decreases Sbv.Unsent(s, b), 1
  {
    if sender !in s.receivedBval.Get(b) {
      var s1 := s.(receivedBval := s.receivedBval.Add(b, sender));
      var count := |s1.receivedBval.Get(b)|;
      var r1 := if count == 2 * net.NumFaulty() + 1 then Sbv.BelieveIn(net, s1, b) else Sbv.Outcome(s1, Sbv.NO_STEP);
      BelieveInEnds(net, s1, b);
      if count == net.NumFaulty() + 1 {
        SbvSameSent(net, s1, b);
        SendBvalEnds(net, r1.state, b);
        JoinEnds(s, r1, Sbv.SendBval(net, r1.state, b));
      }
      hide Sbv.BelieveIn, Sbv.SendBval;
    }
  }

  // ----- The handlers -----

  lemma TryUpdateEpochLive(cfg: Config, s: State, except: Option<(nat, bool)>)
    requires Valid(cfg, s) && LiveBut(cfg, s, except)
    ensures LiveSince(cfg, s.epoch, TryUpdateEpoch(cfg, s).state, except)
    decreases |s.incomingQueue|, FinishWeight(s), 1
  {
    hide Live, IsLive;
    if CanFinish(s) {
      var coin, vals := s.coinState.value, s.confValues.value;
      if Definite(vals) == Some(coin) {
        assert TryUpdateEpoch(cfg, s) == Decide(cfg, s, coin);
      } else {
        var b := if Definite(vals).Some? then Definite(vals).value else coin;
        LiveFromOthers(cfg, s, [], except);
        UpdateEpochLive(cfg, s, b);
        assert TryUpdateEpoch(cfg, s) == UpdateEpoch(cfg, s, b);
        EpochMoves(cfg, s, b);
        ButNothing(cfg, UpdateEpoch(cfg, s, b).state);
      }
    }
  }

  lemma EpochMoves(cfg: Config, s: State, b: bool)
    requires Valid(cfg, s) && s.decision.None?
    ensures s.epoch < UpdateEpoch(cfg, s, b).state.epoch
  {
    hide EnterEpoch, HandleSbvbStep, DrainQueue;
  }

  lemma LiveFromOthers(cfg: Config, s: State, output: seq<set<bool>>, except: Option<(nat, bool)>)
    requires IsLive(cfg, s, output, except)
    ensures FromOthers(cfg, s)
  {
  }

  lemma UpdateEpochLive(cfg: Config, s: State, b: bool)
    requires Valid(cfg, s) && s.decision.None? && FromOthers(cfg, s)
    ensures Live(cfg, UpdateEpoch(cfg, s, b).state)
    decreases |s.incomingQueue|, Distance(s.epoch + 1, b) + 1, 10
  {
    hide Live, Valid, FromOthers;
    StartEpochLive(cfg, s, b);
    DrainQueueLive(cfg, StartEpoch(cfg, s, b).state);
  }

  lemma StartEpochLive(cfg: Config, s: State, b: bool)
    requires Valid(cfg, s) && s.decision.None? && FromOthers(cfg, s)
    ensures Live(cfg, StartEpoch(cfg, s, b).state)
    decreases |s.incomingQueue|, Distance(s.epoch + 1, b) + 1, 9
  {
    hide Live, IsLive, LiveBut, Valid, StepWeight, Distance, FromOthers;
    var (s1, st) := EnterEpoch(cfg, s, b);
    EnterEpochLive(cfg, s, b);
    HandleSbvbStepLive(cfg, s1, st, None);
    ButNothing(cfg, StartEpoch(cfg, s, b).state);
  }

  lemma ButNothing(cfg: Config, s: State)
    ensures LiveBut(cfg, s, None) <==> Live(cfg, s)
  {
  }

  /** In a new epoch, the nodes that have terminated are the voters so far. */
  lemma EnterEpochLive(cfg: Config, s: State, b: bool)
    requires Valid(cfg, s) && s.decision.None? && FromOthers(cfg, s)
    ensures var (s1, st) := EnterEpoch(cfg, s, b); IsLive(cfg, s1, st.output, None)
  {
    hide Sbv.SendBval, IsLive, EstimateSent;
    var s1 := NextEpoch(s, b).(estimated := None, epoch := 0);
    NextEpochLive(cfg, s, b);
    var r := Sbv.SendBval(cfg.net, s1.sbv, b);
    SendBvalLive(cfg, s1, b);
    assert NextEpoch(s, b).sbv == s1.sbv;
    NewEstimate(cfg, s1.(sbv := r.state), r.step.output, b);
    LaterEpoch(cfg, s1.(sbv := r.state, estimated := Some(b)), r.step.output, EnterEpoch(cfg, s, b).0);
  }

  lemma NextEpochLive(cfg: Config, s: State, b: bool)
    requires Valid(cfg, s) && s.decision.None? && FromOthers(cfg, s)
    ensures IsLive(cfg, NextEpoch(s, b).(estimated := None, epoch := 0), [], None)
  {
    ClearIsComplete(cfg, s);
    hide SbvThresholds.Complete;
    var t := NextEpoch(s, b).(estimated := None, epoch := 0);
    forall v, id | id in t.receivedTerm.Get(v) ensures CountsAsVote(t, id, v) {
      assert id in TermsAsConf(s.receivedTerm);
    }
  }

  lemma LaterEpoch(cfg: Config, s: State, output: seq<set<bool>>, t: State)
    requires IsLive(cfg, s, output, None) && s.estimated.Some? && t == s.(epoch := t.epoch)
    ensures IsLive(cfg, t, output, None)
  {
    hide SbvThresholds.Complete;
    assert forall v, id :: CountsAsVote(s, id, v) ==> CountsAsVote(t, id, v);
  }

  lemma SendBvalLive(cfg: Config, s: State, b: bool)
    requires IsLive(cfg, s, [], None)
    ensures var r := Sbv.SendBval(cfg.net, s.sbv, b);
            IsLive(cfg, s.(sbv := r.state), r.step.output, None) && b in r.state.sentBval
  {
    var r := Sbv.SendBval(cfg.net, s.sbv, b);
    PendingOne(cfg, s.sbv, b);
    SbvThresholds.SendBvalComplete(cfg.net, s.sbv, b);
    SendBvalEnds(cfg.net, s.sbv, b);
    SendBvalGrows(cfg.net, s.sbv, b);
    hide Sbv.SendBval, SbvThresholds.Complete;
    SbvUpdateLive(cfg, s, [], r, None);
    assert [] + r.step.output == r.step.output;
  }

  lemma ClearIsComplete(cfg: Config, s: State)
    requires Valid(cfg, s) && s.decision.None? && FromOthers(cfg, s)
    ensures var sbv := Sbv.Clear(s.receivedTerm);
            SbvThresholds.Complete(cfg.net, sbv) && forall v :: SbvThresholds.Pending(cfg.net, sbv, v)
  {
  }

  lemma DrainQueueLive(cfg: Config, s: State)
    requires Settled(cfg, s) && Live(cfg, s)
    ensures Live(cfg, DrainQueue(cfg, s).state)
    decreases |s.incomingQueue|, 0, 9
  {
    if s.epoch in s.incomingQueue {
      var received := s.incomingQueue[s.epoch];
      RemoveKey(s.incomingQueue, s.epoch);
      FlattenSenders(received, cfg.net.n);
      if s.decision.None? {
        FlattenFromOthers(received, cfg.net.n, cfg.net.ourId);
      }
      DequeuedLive(cfg, s);
      hide Live, Flatten;
      HandleQueuedLive(cfg, Dequeue(s), s.epoch, Flatten(received, cfg.net.n));
    }
  }

  lemma DequeuedLive(cfg: Config, s: State)
    requires Live(cfg, s)
    ensures Live(cfg, Dequeue(s))
  {
    hide SbvThresholds.Complete;
    if s.decision.None? {
      var t := Dequeue(s);
      assert forall v, id :: CountsAsVote(s, id, v) ==> CountsAsVote(t, id, v);
    }
  }

  lemma {:induction false} FlattenFromOthers(received: Received, n: nat, id: nat)
    requires id !in received
    ensures forall i :: 0 <= i < |Flatten(received, n)| ==> Flatten(received, n)[i].0 != id
  {
    if n > 0 {
      FlattenFromOthers(received, n - 1, id);
    }
  }

  lemma HandleQueuedLive(cfg: Config, s: State, epoch: nat, queued: seq<(nat, Content)>)
    requires Settled(cfg, s) && Live(cfg, s)
    requires forall i :: 0 <= i < |queued| ==> queued[i].0 < cfg.net.n
    requires s.decision.None? ==> forall i :: 0 <= i < |queued| ==> queued[i].0 != cfg.net.ourId
    ensures Live(cfg, HandleQueued(cfg, s, epoch, queued).state)
    decreases |s.incomingQueue|, 7, |queued|
  {
    hide Live, Settled;
    if queued != [] {
      HandleContentLive(cfg, s, queued[0].0, queued[0].1);
      var t := HandleContent(cfg, s, queued[0].0, queued[0].1).state;
      if t.decision.None? && t.epoch <= epoch {
        HandleContentUndecided(cfg, s, queued[0].0, queued[0].1);
        HandleQueuedLive(cfg, t, epoch, queued[1..]);
      }
    }
  }

  lemma HandleContentUndecided(cfg: Config, s: State, sender: nat, content: Content)
    requires Settled(cfg, s) && sender < cfg.net.n && HandleContent(cfg, s, sender, content).state.decision.None?
    ensures s.decision.None?
  {
    hide HandleContent, Settled;
  }

  lemma HandleContentLive(cfg: Config, s: State, sender: nat, content: Content)
    requires Settled(cfg, s) && Live(cfg, s) && sender < cfg.net.n
    requires s.decision.None? ==> sender != cfg.net.ourId
    ensures Live(cfg, HandleContent(cfg, s, sender, content).state)
    decreases |s.incomingQueue|, ContentWeight(s, content), 5
  {
    hide IsLive;
    match content
    case SbvBroadcast(msg) => HandleSbvBroadcastLive(cfg, s, sender, msg);
    case Conf(vals) =>
      OneMoreConf(cfg, s, sender, vals, None);
      HandleConfLive(cfg, s, sender, vals, None);
    case Term(b) => HandleTermLive(cfg, s, sender, b);
    case Coin(share) => HandleCoinLive(cfg, s, sender, share);
  }

  lemma HandleSbvBroadcastLive(cfg: Config, s: State, sender: nat, msg: Sbv.Message)
    requires Settled(cfg, s) && Live(cfg, s) && sender < cfg.net.n
    requires s.decision.None? ==> sender != cfg.net.ourId
    ensures Live(cfg, HandleSbvBroadcast(cfg, s, sender, msg).state)
    decreases |s.incomingQueue|, 6, 4
  {
    hide IsLive, Sbv.HandleBval, Sbv.HandleAux;
    var r := Sbv.HandleMessage(cfg.net, s.sbv, sender, msg);
    if s.decision.None? {
      match msg {
        case BVal(b) => SbvBvalLive(cfg, s, sender, b, None);
        case Aux(b) =>
          SbvAuxLive(cfg, s, [], sender, b, None);
          assert [] + r.step.output == r.step.output;
      }
    }
    hide Sbv.HandleMessage;
    HandleSbvbStepLive(cfg, s.(sbv := r.state), r.step, None);
  }

  lemma SbvBvalLive(cfg: Config, s: State, sender: nat, b: bool, except: Option<(nat, bool)>)
    requires IsLive(cfg, s, [], except) && sender != cfg.net.ourId
    ensures var r := Sbv.HandleBval(cfg.net, s.sbv, sender, b); IsLive(cfg, s.(sbv := r.state), r.step.output, except)
  {
    var r := Sbv.HandleBval(cfg.net, s.sbv, sender, b);
    PendingOne(cfg, s.sbv, b);
    SbvThresholds.HandleBvalComplete(cfg.net, s.sbv, sender, b);
    SbvBvalEnds(cfg.net, s.sbv, sender, b);
    SbvHandleBvalGrows(cfg.net, s.sbv, sender, b);
    SentStays(cfg.net, s.sbv, sender, b);
    hide Sbv.HandleBval, SbvThresholds.Complete;
    SbvUpdateLive(cfg, s, [], r, except);
    assert [] + r.step.output == r.step.output;
  }

  lemma PendingOne(cfg: Config, s: Sbv.State, b: bool)
    requires SbvThresholds.Complete(cfg.net, s)
    ensures SbvThresholds.Pending(cfg.net, s, b) && SbvThresholds.BvalSent(cfg.net, s, b)
  {
  }

  lemma SentStays(net: NetworkInfo, s: Sbv.State, sender: nat, b: bool)
    ensures s.sentBval <= Sbv.HandleBval(net, s, sender, b).state.sentBval
    ensures Sbv.HandleAux(net, s, sender, b).state.sentBval == s.sentBval
  {
    hide Sbv.HandleBval;
  }

  lemma SbvAuxLive(
    cfg: Config, s: State, output: seq<set<bool>>, sender: nat, b: bool, except: Option<(nat, bool)>)
    requires IsLive(cfg, s, output, except) && sender != cfg.net.ourId
    ensures var r := Sbv.HandleAux(cfg.net, s.sbv, sender, b);
            IsLive(cfg, s.(sbv := r.state), output + r.step.output, except)
  {
    var r := Sbv.HandleAux(cfg.net, s.sbv, sender, b);
    SbvThresholds.HandleAuxComplete(cfg.net, s.sbv, sender, b);
    SbvAuxEnds(cfg.net, s.sbv, sender, b);
    SbvHandleAuxGrows(cfg.net, s.sbv, sender, b);
    SentStays(cfg.net, s.sbv, sender, b);
    hide Sbv.HandleAux, SbvThresholds.Complete;
    SbvUpdateLive(cfg, s, output, r, except);
  }

  lemma SbvUpdateLive(
    cfg: Config, s: State, output: seq<set<bool>>, r: Sbv.Outcome, except: Option<(nat, bool)>)
    requires IsLive(cfg, s, output, except) && SbvThresholds.Complete(cfg.net, r.state)
    requires OutputEnds(s.sbv, r) && SbvGrows(s.sbv, r.state) && s.sbv.sentBval <= r.state.sentBval
    ensures IsLive(cfg, s.(sbv := r.state), output + r.step.output, except)
  {
    hide SbvThresholds.Complete;
    var t := s.(sbv := r.state);
    forall v, id | id in t.receivedTerm.Get(v) ensures CountsAsVote(t, id, v) || except == Some((id, v)) {
      assert CountsAsVote(s, id, v) ==> CountsAsVote(t, id, v);
    }
  }

  lemma HandleSbvbStepLive(cfg: Config, s: State, st: Sbv.Step, except: Option<(nat, bool)>)
    requires Settled(cfg, s) && (s.decision.None? ==> IsLive(cfg, s, st.output, except))
    ensures LiveSince(cfg, s.epoch, HandleSbvbStep(cfg, s, st).state, except)
    decreases |s.incomingQueue|, StepWeight(s, st), 8
  {
    if s.decision.None? {
      if s.confValues.Some? || st.output == [] {
        assert st.output == [];
      } else if s.coinState.Decided? {
        var s1 := s.(confValues := Some(st.output[0]));
        TakesUp(cfg, s, st.output, except);
        hide IsLive;
        TryUpdateEpochLive(cfg, s1, except);
      } else {
        hide IsLive;
        SendConfLive(cfg, s, st.output, except);
      }
    }
  }

  /** The output becomes the candidate values. */
  lemma TakesUp(cfg: Config, s: State, output: seq<set<bool>>, except: Option<(nat, bool)>)
    requires IsLive(cfg, s, output, except) && output != []
    ensures var s1 := s.(confValues := Some(output[0]));
            && (s.coinState.Decided? || !cfg.net.IsValidator() ==> IsLive(cfg, s1, [], except))
            && IsLive(cfg, s1.(receivedConf := s1.receivedConf[cfg.net.ourId := output[0]]), [], except)
  {
    hide SbvThresholds.Complete;
    var s1 := s.(confValues := Some(output[0]));
    var s2 := s1.(receivedConf := s1.receivedConf[cfg.net.ourId := output[0]]);
    assert forall v, id :: CountsAsVote(s, id, v) ==> CountsAsVote(s1, id, v) && CountsAsVote(s2, id, v);
  }

  lemma SendConfLive(cfg: Config, s: State, output: seq<set<bool>>, except: Option<(nat, bool)>)
    requires Settled(cfg, s) && s.coinState.InProgress? && s.decision.None? && s.confValues.None?
    requires output != [] && IsLive(cfg, s, output, except)
    ensures LiveSince(cfg, s.epoch, SendConf(cfg, s, output[0]).state, except)
    decreases |s.incomingQueue|, Weight(s.epoch, output[0]), 7
  {
    hide IsLive;
    var s1 := s.(confValues := Some(output[0]));
    TakesUp(cfg, s, output, except);
    if cfg.net.IsValidator() {
      HandleConfLive(cfg, s1, cfg.net.ourId, output[0], except);
    } else {
      TryFinishConfRoundLive(cfg, s1, except);
    }
  }

  lemma OneMoreConf(cfg: Config, s: State, sender: nat, vals: set<bool>, except: Option<(nat, bool)>)
    requires LiveBut(cfg, s, except)
    ensures LiveBut(cfg, s.(receivedConf := s.receivedConf[sender := vals]), except)
  {
    hide SbvThresholds.Complete;
    var t := s.(receivedConf := s.receivedConf[sender := vals]);
    assert forall v, id :: CountsAsVote(s, id, v) ==> CountsAsVote(t, id, v);
  }

  lemma HandleConfLive(cfg: Config, s: State, sender: nat, vals: set<bool>, except: Option<(nat, bool)>)
    requires Settled(cfg, s) && LiveBut(cfg, s.(receivedConf := s.receivedConf[sender := vals]), except)
    ensures LiveSince(cfg, s.epoch, HandleConf(cfg, s, sender, vals).state, except)
    decreases |s.incomingQueue|, StateWeight(s), 4
  {
    hide IsLive;
    TryFinishConfRoundLive(cfg, s.(receivedConf := s.receivedConf[sender := vals]), except);
  }

  lemma HandleTermLive(cfg: Config, s: State, sender: nat, b: bool)
    requires Settled(cfg, s) && Live(cfg, s) && sender < cfg.net.n
    requires s.decision.None? ==> sender != cfg.net.ourId
    ensures Live(cfg, HandleTerm(cfg, s, sender, b).state)
    decreases |s.incomingQueue|, 6, 4
  {
    var s1 := s.(receivedTerm := s.receivedTerm.Add(b, sender));
    if s1.decision.None? && |s1.receivedTerm.Get(b)| <= cfg.net.NumFaulty() {
      OneMoreTerm(cfg, s, sender, b);
      hide IsLive;
      assert s1.receivedTerm.Get(!b) == s.receivedTerm.Get(!b);
      TermAsVotesLive(cfg, s1, sender, b);
    }
  }

  lemma OneMoreTerm(cfg: Config, s: State, sender: nat, b: bool)
    requires IsLive(cfg, s, [], None) && sender != cfg.net.ourId
    ensures IsLive(cfg, s.(receivedTerm := s.receivedTerm.Add(b, sender)), [], Some((sender, b)))
  {
    hide SbvThresholds.Complete;
    var t := s.(receivedTerm := s.receivedTerm.Add(b, sender));
    forall v, id | id in t.receivedTerm.Get(v) ensures CountsAsVote(t, id, v) || Some((sender, b)) == Some((id, v)) {
      assert v == b || v == !b;
      assert CountsAsVote(s, id, v) ==> CountsAsVote(t, id, v);
    }
    forall v ensures cfg.net.ourId !in t.receivedTerm.Get(v) {
      assert v == b || v == !b;
    }
  }

  lemma TermAsVotesLive(cfg: Config, s: State, sender: nat, b: bool)
    requires Settled(cfg, s) && sender < cfg.net.n && s.decision.None? && sender != cfg.net.ourId
    requires IsLive(cfg, s, [], Some((sender, b)))
    ensures Live(cfg, TermAsVotes(cfg, s, sender, b).state)
    decreases |s.incomingQueue|, 6, 3
  {
    hide IsLive, KeepsAll;
    var sbv := TermAsSbv(cfg, s, sender, b);
    var s1 := s.(sbv := sbv.state);
    TermAsSbvLive(cfg, s, sender, b);
    HandleSbvbStepLive(cfg, s1, sbv.step, Some((sender, b)));
    var s2 := HandleSbvbStep(cfg, s1, sbv.step).state;
    TermAsSbvKeeps(cfg, s, sender, b);
    HandleSbvbStepKeeps(cfg, s1, sbv.step);
    TermVotes(cfg, s1, s2, sender, b);
    HandleConfLive(cfg, s2, sender, {b}, None);
  }

  lemma TermAsSbvLive(cfg: Config, s: State, sender: nat, b: bool)
    requires sender != cfg.net.ourId && IsLive(cfg, s, [], Some((sender, b)))
    ensures var sbv := TermAsSbv(cfg, s, sender, b);
            IsLive(cfg, s.(sbv := sbv.state), sbv.step.output, Some((sender, b)))
  {
    hide IsLive, Sbv.HandleBval, Sbv.HandleAux;
    var r1 := Sbv.HandleBval(cfg.net, s.sbv, sender, b);
    SbvBvalLive(cfg, s, sender, b, Some((sender, b)));
    SbvAuxLive(cfg, s.(sbv := r1.state), r1.step.output, sender, b, Some((sender, b)));
  }

  /** With its `Conf`, a node that has terminated counts as a voter. */
  lemma TermVotes(cfg: Config, s: State, t: State, sender: nat, b: bool)
    requires KeepsAll(s, t) && LiveSince(cfg, s.epoch, t, Some((sender, b)))
    requires sender in s.sbv.receivedBval.Get(b) && sender in s.sbv.receivedAux.Get(b)
    ensures LiveBut(cfg, t.(receivedConf := t.receivedConf[sender := {b}]), None)
  {
    hide SbvThresholds.Complete, IsKept;
    var u := t.(receivedConf := t.receivedConf[sender := {b}]);
    assert forall v, id :: CountsAsVote(t, id, v) ==> CountsAsVote(u, id, v);
    if t.decision.None? && t.epoch == s.epoch {
      assert CountsAsVote(u, sender, b);
    }
  }

  lemma HandleCoinLive(cfg: Config, s: State, sender: nat, share: Ts.Share)
    requires Settled(cfg, s) && Live(cfg, s) && sender < cfg.net.n
    requires s.decision.None? ==> sender != cfg.net.ourId
    ensures Live(cfg, HandleCoin(cfg, s, sender, share).state)
    decreases |s.incomingQueue|, 6, 4
  {
    if s.decision.None? && s.coinState.InProgress? {
      ShareLive(cfg, s.coinState.ts, sender, share);
      CoinUpdateLive(cfg, s, Ts.HandleShare(cfg.net, s.coinState.ts, sender, share), None);
      hide IsLive;
      OnCoinStepLive(cfg, s, Ts.HandleShare(cfg.net, s.coinState.ts, sender, share), None);
    }
  }

  /** If there is no signature, the coin is as it should be between calls. */
  ghost predicate CoinOk(cfg: Config, ts: Ts.Outcome) {
    !ts.step.hasOutput ==> CoinLive(cfg, ts.state)
  }

  lemma TryOutputLive(cfg: Config, s: Ts.State)
    requires !s.terminated && (s.hadInput && cfg.net.IsValidator() ==> cfg.net.ourId in s.receivedShares)
    ensures CoinOk(cfg, Ts.TryOutput(cfg.net, s))
  {
  }

  lemma ShareLive(cfg: Config, s: Ts.State, sender: nat, share: Ts.Share)
    requires CoinLive(cfg, s) && sender < cfg.net.n
    ensures CoinOk(cfg, Ts.HandleShare(cfg.net, s, sender, share))
  {
    TryOutputLive(cfg, s.(receivedShares := s.receivedShares[sender := share]));
    hide Ts.TryOutput;
  }

  lemma SignLive(cfg: Config, s: Ts.State)
    requires CoinLive(cfg, s)
    ensures CoinOk(cfg, Ts.Sign(cfg.net, s))
  {
    if !s.hadInput {
      var s1 := s.(hadInput := true);
      if cfg.net.IsValidator() {
        var share := Ts.Share(cfg.net.ourId, s.doc);
        var s2 := s1.(receivedShares := s1.receivedShares[cfg.net.ourId := share]);
        TryOutputLive(cfg, s2);
        assert Ts.HandleShare(cfg.net, s1, cfg.net.ourId, share) == Ts.TryOutput(cfg.net, s2);
      } else {
        TryOutputLive(cfg, s1);
      }
      hide Ts.TryOutput;
    }
  }

  lemma CoinUpdateLive(cfg: Config, s: State, ts: Ts.Outcome, except: Option<(nat, bool)>)
    requires IsLive(cfg, s, [], except) && CoinOk(cfg, ts) && s.coinState.InProgress?
    ensures IsLive(cfg, AfterCoin(cfg, s, ts), [], except)
  {
    hide SbvThresholds.Complete;
    var t := AfterCoin(cfg, s, ts);
    assert forall v, id :: CountsAsVote(s, id, v) ==> CountsAsVote(t, id, v);
  }

  lemma OnCoinStepLive(cfg: Config, s: State, ts: Ts.Outcome, except: Option<(nat, bool)>)
    requires Settled(cfg, s) && s.coinState.InProgress? && ts.state.doc == s.epoch
    requires LiveBut(cfg, AfterCoin(cfg, s, ts), except)
    ensures LiveSince(cfg, s.epoch, OnCoinStep(cfg, s, ts).state, except)
    decreases |s.incomingQueue|, StateWeight(s), 2
  {
    hide IsLive;
    if ts.step.hasOutput {
      TryUpdateEpochLive(cfg, AfterCoin(cfg, s, ts), except);
    }
  }

  lemma TryFinishConfRoundLive(cfg: Config, s: State, except: Option<(nat, bool)>)
    requires Settled(cfg, s) && LiveBut(cfg, s, except)
    ensures LiveSince(cfg, s.epoch, TryFinishConfRound(cfg, s).state, except)
    decreases |s.incomingQueue|, StateWeight(s), 3
  {
    if s.decision.None? && s.confValues.Some? && CountConf(s) >= cfg.net.NumCorrect() && s.coinState.InProgress? {
      var ts := Ts.Sign(cfg.net, s.coinState.ts);
      SignLive(cfg, s.coinState.ts);
      CoinUpdateLive(cfg, s, ts, except);
      hide IsLive;
      OnCoinStepLive(cfg, s, ts, except);
      var t := OnCoinStep(cfg, s, ts).state;
      TryUpdateEpochLive(cfg, t, if t.epoch == s.epoch then except else None);
    }
  }

  // ----- Entry points -----

  lemma InitialLive(cfg: Config)
    ensures Live(cfg, INITIAL)
  {
  }

  lemma ProposeLive(cfg: Config, s: State, input: bool)
    requires Settled(cfg, s) && Live(cfg, s)
    ensures Live(cfg, Propose(cfg, s, input).state)
  {
    if CanPropose(s) && s.decision.None? {
      hide Sbv.SendBval, IsLive;
      var r := Sbv.SendBval(cfg.net, s.sbv, input);
      var s1 := s.(estimated := Some(input), sbv := r.state);
      SendBvalLive(cfg, s, input);
      NewEstimate(cfg, s.(sbv := r.state), r.step.output, input);
      HandleSbvbStepLive(cfg, s1, r.step, None);
    }
  }

  lemma NewEstimate(cfg: Config, s: State, output: seq<set<bool>>, b: bool)
    requires IsLive(cfg, s, output, None) && b in s.sbv.sentBval
    ensures IsLive(cfg, s.(estimated := Some(b)), output, None)
  {
    hide SbvThresholds.Complete;
    var t := s.(estimated := Some(b));
    assert forall v, id :: CountsAsVote(s, id, v) ==> CountsAsVote(t, id, v);
  }

  /** Every message from another node keeps a node live, through all recursion. */
  lemma HandleMessageLive(cfg: Config, s: State, sender: nat, msg: Message)
    requires Settled(cfg, s) && Live(cfg, s) && sender < cfg.net.n && sender != cfg.net.ourId
    ensures Live(cfg, HandleMessage(cfg, s, sender, msg).state)
  {
    hide IsLive, HandleContent, Enqueue, Advances;
    if s.decision.Some? || (msg.epoch < s.epoch && msg.content.CanExpire()) {
    } else if msg.epoch > s.epoch + MAX_FUTURE_EPOCHS {
    } else if msg.epoch > s.epoch {
      EnqueueLive(cfg, s, sender, msg);
    } else {
      HandleContentLive(cfg, s, sender, msg.content);
    }
  }

  lemma EnqueueLive(cfg: Config, s: State, sender: nat, msg: Message)
    requires Live(cfg, s) && sender != cfg.net.ourId
    ensures Live(cfg, Enqueue(s, sender, msg).state)
  {
    hide SbvThresholds.Complete, ReceivedMessages.Insert;
    if s.decision.None? {
      var t := Enqueue(s, sender, msg).state;
      assert forall v, id :: CountsAsVote(s, id, v) ==> CountsAsVote(t, id, v);
    }
  }
}
