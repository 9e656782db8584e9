/** No message for the current epoch or a later one is lost in a node that has not decided: it is
    counted, or it waits in the queue for its epoch. */
module BinaryAgreementRecords {
  import opened Options
  import opened Quorums
  import opened BoolMultimaps
  import opened BinaryAgreementSpec
  import Sbv = SbvSpec
  import Ts = ThresholdSignSpec

  // ----- What is counted -----

  /** A node that has terminated with `b` counts as a sender of the other messages for `b`. */
  ghost predicate CountsAsVote(s: State, id: nat, b: bool) {
    id in s.sbv.receivedBval.Get(b) && id in s.sbv.receivedAux.Get(b) && id in s.receivedConf
  }

  /** This content from `id` counts in the current epoch. */
  ghost predicate IsCounted(s: State, id: nat, content: Content) {
    match content
    case SbvBroadcast(BVal(b)) => id in s.sbv.receivedBval.Get(b)
    case SbvBroadcast(Aux(b)) => id in s.sbv.receivedAux.Get(b)
    case Conf(_) => id in s.receivedConf
    case Term(b) => id in s.receivedTerm.Get(b) && CountsAsVote(s, id, b)
    case Coin(share) =>
      s.coinState.InProgress? && !s.coinState.ts.terminated && share == Ts.Share(id, s.epoch) ==>
        id in s.coinState.ts.receivedShares
  }

  ghost predicate IsQueued(s: State, id: nat, epoch: nat, content: Content) {
    epoch in s.incomingQueue && id in s.incomingQueue[epoch] && s.incomingQueue[epoch][id].Has(content)
  }

  /** The message is counted or queued, unless it does not matter any more. */
  ghost predicate IsKept(s: State, id: nat, epoch: nat, content: Content) {
    || s.decision.Some? || epoch < s.epoch
    || IsQueued(s, id, epoch, content)
    || (epoch == s.epoch && IsCounted(s, id, content))
  }

  ghost predicate KeepsAll(s: State, t: State) {
    && (s.decision.Some? ==> t.decision.Some?) && s.epoch <= t.epoch
    && (t.decision.None? && t.epoch == s.epoch ==> CountsMore(s, t))
    && (forall id, epoch, content :: IsKept(s, id, epoch, content) ==> IsKept(t, id, epoch, content))
  }

  // ----- Synchronized BV Broadcast and the coin -----

  ghost predicate Grows(m: BoolMultimap, m': BoolMultimap) {
    forall b :: m.Get(b) <= m'.Get(b)
  }

  /** The broadcast counts what it did before. */
  ghost predicate SbvGrows(s: Sbv.State, t: Sbv.State) {
    Grows(s.receivedBval, t.receivedBval) && Grows(s.receivedAux, t.receivedAux)
  }

  lemma AddGrows(m: BoolMultimap, b: bool, id: nat)
    ensures Grows(m, m.Add(b, id))
  {
    forall v ensures m.Get(v) <= m.Add(b, id).Get(v) {
      assert v == b || v == !b;
    }
  }

  lemma SbvHandleAuxGrows(net: NetworkInfo, s: Sbv.State, sender: nat, b: bool)
    ensures var t := Sbv.HandleAux(net, s, sender, b).state; SbvGrows(s, t) && sender in t.receivedAux.Get(b)
  {
    AddGrows(s.receivedAux, b, sender);
  }

  lemma BelieveInGrows(net: NetworkInfo, s: Sbv.State, b: bool)
    ensures SbvGrows(s, Sbv.BelieveIn(net, s, b).state)
  {
    SbvHandleAuxGrows(net, s.(binValues := s.binValues + {b}), net.ourId, b);
    hide Sbv.HandleAux;
  }

  lemma SendBvalGrows(net: NetworkInfo, s: Sbv.State, b: bool)
    ensures SbvGrows(s, Sbv.SendBval(net, s, b).state)
    decreases Sbv.Unsent(s, b), 0
  {
    if b !in s.sentBval {
      SbvHandleBvalGrows(net, s.(sentBval := s.sentBval + {b}), net.ourId, b);
    }
    hide Sbv.HandleBval;
  }

  lemma SbvHandleBvalGrows(net: NetworkInfo, s: Sbv.State, sender: nat, b: bool)
    ensures var t := Sbv.HandleBval(net, s, sender, b).state; SbvGrows(s, t) && sender in t.receivedBval.Get(b)
    decreases Sbv.Unsent(s, b), 1
  {
    if sender !in s.receivedBval.Get(b) {
      var s1 := s.(receivedBval := s.receivedBval.Add(b, sender));
      AddGrows(s.receivedBval, b, sender);
      BelieveInGrows(net, s1, b);
      var count := |s1.receivedBval.Get(b)|;
      var r1 := if count == 2 * net.NumFaulty() + 1 then Sbv.BelieveIn(net, s1, b) else Sbv.Outcome(s1, Sbv.NO_STEP);
      if count == net.NumFaulty() + 1 {
        SbvSameSent(net, s1, b);
        SendBvalGrows(net, r1.state, b);
      }
      hide Sbv.BelieveIn, Sbv.SendBval;
    }
  }

  lemma SbvSameSent(net: NetworkInfo, s: Sbv.State, b: bool)
    ensures Sbv.BelieveIn(net, s, b).state.sentBval == s.sentBval
  {
  }

  /** Whatever a call to the coin does, it keeps the shares. */
  ghost predicate TsGrows(s: Ts.State, t: Ts.State) {
    t.doc == s.doc && s.receivedShares.Keys <= t.receivedShares.Keys && (s.terminated ==> t.terminated)
  }

  lemma SignGrows(net: NetworkInfo, s: Ts.State)
    ensures TsGrows(s, Ts.Sign(net, s).state)
    decreases Ts.Pending(s), 0
  {
    if !s.hadInput {
      var s1 := s.(hadInput := true);
      if net.IsValidator() {
        ShareGrows(net, s1, net.ourId, Ts.Share(net.ourId, s.doc));
      } else {
        TryOutputGrows(net, s1);
      }
    }
  }

  lemma TryOutputGrows(net: NetworkInfo, s: Ts.State)
    ensures TsGrows(s, Ts.TryOutput(net, s).state)
    decreases Ts.Pending(s), 1
  {
    if Ts.HasEnough(net, s) {
      SignGrows(net, s.(terminated := true));
    }
  }

  /** A share counts if it is valid, as long as there is no signature. */
  lemma ShareGrows(net: NetworkInfo, s: Ts.State, sender: nat, share: Ts.Share)
    requires sender < net.n
    ensures var t := Ts.HandleShare(net, s, sender, share).state;
            && TsGrows(s, t)
            && (!t.terminated && share == Ts.Share(sender, s.doc) ==> sender in t.receivedShares)
    decreases Ts.Pending(s), 2
  {
    if !s.terminated && Ts.IsShareValid(s, sender, share) {
      TryOutputGrows(net, s.(receivedShares := s.receivedShares[sender := share]));
    }
  }

  // ----- Changes within an epoch -----

  /** What was counted still is. */
  ghost predicate CountsMore(s: State, t: State) {
    && t.epoch == s.epoch
    && SbvGrows(s.sbv, t.sbv) && Grows(s.receivedTerm, t.receivedTerm) && s.receivedConf.Keys <= t.receivedConf.Keys
    && (t.coinState.InProgress? ==> s.coinState.InProgress? && TsGrows(s.coinState.ts, t.coinState.ts))
  }

  lemma KeepsTwice(s: State, t: State, u: State)
    requires KeepsAll(s, t) && KeepsAll(t, u)
    ensures KeepsAll(s, u)
  {
    hide IsKept, CountsMore;
    if u.decision.None? && u.epoch == s.epoch {
      MoreTwice(s, t, u);
    }
  }

  lemma MoreTwice(s: State, t: State, u: State)
    requires CountsMore(s, t) && CountsMore(t, u)
    ensures CountsMore(s, u)
  {
  }

  lemma KeepsItself(s: State)
    ensures KeepsAll(s, s)
  {
  }

  lemma MoreIsKept(s: State, t: State)
    requires CountsMore(s, t) && t.decision == s.decision && t.incomingQueue == s.incomingQueue
    ensures KeepsAll(s, t)
  {
    hide CountsMore;
    MoreEpochs(s, t);
    forall id, epoch, content | IsKept(s, id, epoch, content) ensures IsKept(t, id, epoch, content) {
      if epoch == s.epoch && IsCounted(s, id, content) {
        CountedStays(s, t, id, content);
      }
    }
  }

  lemma MoreEpochs(s: State, t: State)
    requires CountsMore(s, t)
    ensures t.epoch == s.epoch
  {
  }

  lemma CountedStays(s: State, t: State, id: nat, content: Content)
    requires CountsMore(s, t) && IsCounted(s, id, content)
    ensures IsCounted(t, id, content)
  {
  }

  lemma GrowsItself(m: BoolMultimap, s: Sbv.State)
    ensures Grows(m, m) && SbvGrows(s, s)
  {
  }

  /** A new epoch loses nothing but messages of the old one. */
  lemma NextEpochKeeps(s: State, b: bool)
    ensures KeepsAll(s, NextEpoch(s, b))
  {
  }

  // ----- The handlers -----

  /** No messages for the current epoch are left in the queue. */
  predicate IsDrained(s: State) {
    s.decision.None? ==> s.epoch !in s.incomingQueue
  }

  lemma TryUpdateEpochKeeps(cfg: Config, s: State)
    requires Valid(cfg, s)
    ensures KeepsAll(s, TryUpdateEpoch(cfg, s).state)
    ensures IsDrained(s) ==> IsDrained(TryUpdateEpoch(cfg, s).state)
    decreases |s.incomingQueue|, FinishWeight(s), 1
  {
    hide KeepsAll;
    if !CanFinish(s) {
      KeepsItself(s);
    } else {
      var coin, vals := s.coinState.value, s.confValues.value;
      if Definite(vals) == Some(coin) {
        DecideKeeps(cfg, s, coin);
        assert TryUpdateEpoch(cfg, s) == Decide(cfg, s, coin);
      } else {
        var b := if Definite(vals).Some? then Definite(vals).value else coin;
        UpdateEpochKeeps(cfg, s, b);
        assert TryUpdateEpoch(cfg, s) == UpdateEpoch(cfg, s, b);
      }
    }
  }

  lemma DecideKeeps(cfg: Config, s: State, b: bool)
    requires Valid(cfg, if s.decision.None? then s.(decision := Some(b)) else s)
    ensures KeepsAll(s, Decide(cfg, s, b).state)
  {
  }

  lemma UpdateEpochKeeps(cfg: Config, s: State, b: bool)
    requires Valid(cfg, s) && s.decision.None?
    ensures KeepsAll(s, UpdateEpoch(cfg, s, b).state)
    ensures IsDrained(UpdateEpoch(cfg, s, b).state)
    decreases |s.incomingQueue|, Distance(s.epoch + 1, b) + 1, 10
  {
    hide KeepsAll, Valid;
    StartEpochKeeps(cfg, s, b);
    var r1 := StartEpoch(cfg, s, b);
    DrainQueueKeeps(cfg, r1.state);
    KeepsTwice(s, r1.state, DrainQueue(cfg, r1.state).state);
  }

  lemma StartEpochKeeps(cfg: Config, s: State, b: bool)
    requires Valid(cfg, s) && s.decision.None?
    ensures KeepsAll(s, StartEpoch(cfg, s, b).state)
    decreases |s.incomingQueue|, Distance(s.epoch + 1, b) + 1, 9
  {
    hide KeepsAll, Valid, StepWeight, Distance;
    var (s1, st) := EnterEpoch(cfg, s, b);
    EnterEpochKeeps(cfg, s, b);
    HandleSbvbStepKeeps(cfg, s1, st);
    KeepsTwice(s, s1, HandleSbvbStep(cfg, s1, st).state);
  }

  lemma EnterEpochKeeps(cfg: Config, s: State, b: bool)
    requires Valid(cfg, s) && s.decision.None?
    ensures KeepsAll(s, EnterEpoch(cfg, s, b).0)
  {
    hide KeepsAll, Sbv.SendBval, TermsAsConf;
    var s1, s2 := NextEpoch(s, b), EnterEpoch(cfg, s, b).0;
    NextEpochKeeps(s, b);
    SendBvalGrows(cfg.net, s1.sbv, b);
    GrowsItself(s1.receivedTerm, s1.sbv);
    MoreIsKept(s1, s2);
    KeepsTwice(s, s1, s2);
  }

  lemma DrainQueueKeeps(cfg: Config, s: State)
    requires Settled(cfg, s)
    ensures KeepsAll(s, DrainQueue(cfg, s).state)
    ensures IsDrained(DrainQueue(cfg, s).state)
    decreases |s.incomingQueue|, 0, 9
  {
    if s.epoch !in s.incomingQueue {
      KeepsItself(s);
    } else {
      var received := s.incomingQueue[s.epoch];
      var queued := Flatten(received, cfg.net.n);
      RemoveKey(s.incomingQueue, s.epoch);
      FlattenSenders(received, cfg.net.n);
      HandleQueuedKeeps(cfg, Dequeue(s), s.epoch, queued);
      var t := HandleQueued(cfg, Dequeue(s), s.epoch, queued).state;
      hide HandleQueued, Settled, Flatten, KeepsAll;
      AllAreHandled(cfg, s, t);
    }
  }

  /** What leaves the queue is handled. */
  lemma AllAreHandled(cfg: Config, s: State, t: State)
    requires Settled(cfg, s) && s.epoch in s.incomingQueue && KeepsAll(Dequeue(s), t)
    requires var queued := Flatten(s.incomingQueue[s.epoch], cfg.net.n);
             forall i :: 0 <= i < |queued| ==> IsKept(t, queued[i].0, s.epoch, queued[i].1)
    ensures KeepsAll(s, t)
  {
    hide Flatten, Advances;
    var received := s.incomingQueue[s.epoch];
    forall id, epoch, content | IsKept(s, id, epoch, content) ensures IsKept(t, id, epoch, content) {
      if epoch == s.epoch && IsQueued(s, id, epoch, content) {
        var i := FlattenHasAll(received, cfg.net.n, id, content);
      } else {
        assert IsKept(Dequeue(s), id, epoch, content);
      }
    }
  }

  lemma {:induction false} FlattenHasAll(received: Received, n: nat, id: nat, content: Content) returns (i: nat)
    requires id < n && id in received && received[id].Has(content)
    ensures i < |Flatten(received, n)| && Flatten(received, n)[i] == (id, content)
  {
    hide From, ReceivedMessages.Has;
    if id < n - 1 {
      i := FlattenHasAll(received, n - 1, id, content);
    } else {
      var j := FromHasAll(received, id, content);
      i := |Flatten(received, n - 1)| + j;
    }
  }

  lemma FromHasAll(received: Received, id: nat, content: Content) returns (j: nat)
    requires id in received && received[id].Has(content)
    ensures j < |From(received, id)| && From(received, id)[j] == (id, content)
  {
    received[id].ContentsAreRecorded(content);
    hide ReceivedMessages.Contents, ReceivedMessages.Has;
    var contents := received[id].Contents();
    j :| j < |contents| && contents[j] == content;
  }

  lemma HandleQueuedKeeps(cfg: Config, s: State, epoch: nat, queued: seq<(nat, Content)>)
    requires Settled(cfg, s) && s.epoch == epoch
    requires forall i :: 0 <= i < |queued| ==> queued[i].0 < cfg.net.n
    ensures var t := HandleQueued(cfg, s, epoch, queued).state;
            KeepsAll(s, t) && forall i :: 0 <= i < |queued| ==> IsKept(t, queued[i].0, epoch, queued[i].1)
    ensures IsDrained(s) ==> IsDrained(HandleQueued(cfg, s, epoch, queued).state)
    decreases |s.incomingQueue|, 7, |queued|
  {
    hide KeepsAll, Settled, IsKept;
    if queued == [] {
      KeepsItself(s);
    } else {
      var (id, content) := queued[0];
      HandleContentKeeps(cfg, s, id, content);
      var t := HandleContent(cfg, s, id, content).state;
      if t.decision.Some? || t.epoch > epoch {
        forall i | 0 <= i < |queued| ensures IsKept(t, queued[i].0, epoch, queued[i].1) {
          PastIsKept(t, queued[i].0, epoch, queued[i].1);
        }
      } else {
        HandleQueuedKeeps(cfg, t, epoch, queued[1..]);
        var u := HandleQueued(cfg, t, epoch, queued[1..]).state;
        KeepsTwice(s, t, u);
        KeepsOne(t, u, id, epoch, content);
        forall i | 0 <= i < |queued| ensures IsKept(u, queued[i].0, epoch, queued[i].1) {
          if i > 0 {
            assert queued[i] == queued[1..][i - 1];
          }
        }
      }
    }
  }

  lemma PastIsKept(s: State, id: nat, epoch: nat, content: Content)
    requires s.decision.Some? || s.epoch > epoch
    ensures IsKept(s, id, epoch, content)
  {
  }

  lemma KeepsOne(s: State, t: State, id: nat, epoch: nat, content: Content)
    requires KeepsAll(s, t) && IsKept(s, id, epoch, content)
    ensures IsKept(t, id, epoch, content)
  {
  }

  lemma MoreOf(s: State, t: State)
    requires KeepsAll(s, t)
    ensures s.epoch <= t.epoch
    ensures t.decision.None? && t.epoch == s.epoch ==> s.decision.None? && s.receivedConf.Keys <= t.receivedConf.Keys
  {
  }

  lemma CountedIsKept(s: State, id: nat, content: Content)
    requires IsCounted(s, id, content)
    ensures IsKept(s, id, s.epoch, content)
  {
  }

  lemma HandleContentKeeps(cfg: Config, s: State, sender: nat, content: Content)
    requires Settled(cfg, s) && sender < cfg.net.n
    ensures var t := HandleContent(cfg, s, sender, content).state;
            KeepsAll(s, t) && IsKept(t, sender, s.epoch, content)
    ensures IsDrained(s) ==> IsDrained(HandleContent(cfg, s, sender, content).state)
    decreases |s.incomingQueue|, ContentWeight(s, content), 5
  {
    match content
    case SbvBroadcast(msg) => HandleSbvBroadcastKeeps(cfg, s, sender, msg);
    case Conf(vals) => HandleConfKeeps(cfg, s, sender, vals);
    case Term(b) => HandleTermKeeps(cfg, s, sender, b);
    case Coin(share) => HandleCoinKeeps(cfg, s, sender, share);
  }

  lemma HandleSbvBroadcastKeeps(cfg: Config, s: State, sender: nat, msg: Sbv.Message)
    requires Settled(cfg, s) && sender < cfg.net.n
    ensures var t := HandleSbvBroadcast(cfg, s, sender, msg).state;
            KeepsAll(s, t) && IsKept(t, sender, s.epoch, SbvBroadcast(msg))
    ensures IsDrained(s) ==> IsDrained(HandleSbvBroadcast(cfg, s, sender, msg).state)
    decreases |s.incomingQueue|, 6, 4
  {
    var r := Sbv.HandleMessage(cfg.net, s.sbv, sender, msg);
    match msg {
      case BVal(b) => SbvHandleBvalGrows(cfg.net, s.sbv, sender, b);
      case Aux(b) => SbvHandleAuxGrows(cfg.net, s.sbv, sender, b);
    }
    var s1 := s.(sbv := r.state);
    GrowsItself(s.receivedTerm, s.sbv);
    MoreIsKept(s, s1);
    CountedIsKept(s1, sender, SbvBroadcast(msg));
    hide KeepsAll, IsKept, Sbv.HandleMessage, SbvGrows;
    HandleSbvbStepKeeps(cfg, s1, r.step);
    var t := HandleSbvbStep(cfg, s1, r.step).state;
    KeepsTwice(s, s1, t);
    KeepsOne(s1, t, sender, s.epoch, SbvBroadcast(msg));
  }

  lemma HandleSbvbStepKeeps(cfg: Config, s: State, st: Sbv.Step)
    requires Settled(cfg, s)
    ensures KeepsAll(s, HandleSbvbStep(cfg, s, st).state)
    ensures IsDrained(s) ==> IsDrained(HandleSbvbStep(cfg, s, st).state)
    decreases |s.incomingQueue|, StepWeight(s, st), 8
  {
    if s.confValues.Some? || st.output == [] {
      KeepsItself(s);
    } else if s.coinState.Decided? {
      var s1 := s.(confValues := Some(st.output[0]));
      SameIsKept(s, s1);
      TryUpdateEpochKeeps(cfg, s1);
      KeepsTwice(s, s1, TryUpdateEpoch(cfg, s1).state);
    } else {
      SendConfKeeps(cfg, s, st.output[0]);
    }
  }

  lemma SameIsKept(s: State, t: State)
    requires t == s.(confValues := t.confValues)
    ensures KeepsAll(s, t)
  {
  }

  lemma SendConfKeeps(cfg: Config, s: State, vals: set<bool>)
    requires Settled(cfg, s) && s.coinState.InProgress?
    ensures KeepsAll(s, SendConf(cfg, s, vals).state)
    ensures IsDrained(s) ==> IsDrained(SendConf(cfg, s, vals).state)
    decreases |s.incomingQueue|, Weight(s.epoch, vals), 7
  {
    hide KeepsAll;
    if s.confValues.Some? {
      KeepsItself(s);
    } else {
      var s1 := s.(confValues := Some(vals));
      SameIsKept(s, s1);
      if !cfg.net.IsValidator() {
        TryFinishConfRoundKeeps(cfg, s1);
        KeepsTwice(s, s1, TryFinishConfRound(cfg, s1).state);
      } else {
        HandleContentKeeps(cfg, s1, cfg.net.ourId, Conf(vals));
        KeepsTwice(s, s1, HandleContent(cfg, s1, cfg.net.ourId, Conf(vals)).state);
      }
    }
  }

  lemma HandleConfKeeps(cfg: Config, s: State, sender: nat, vals: set<bool>)
    requires Settled(cfg, s)
    ensures var t := HandleConf(cfg, s, sender, vals).state;
            && KeepsAll(s, t) && IsKept(t, sender, s.epoch, Conf(vals))
            && (t.decision.None? && t.epoch == s.epoch ==> sender in t.receivedConf)
    ensures IsDrained(s) ==> IsDrained(HandleConf(cfg, s, sender, vals).state)
    decreases |s.incomingQueue|, StateWeight(s), 4
  {
    var s1 := s.(receivedConf := s.receivedConf[sender := vals]);
    GrowsItself(s.receivedTerm, s.sbv);
    MoreIsKept(s, s1);
    CountedIsKept(s1, sender, Conf(vals));
    hide KeepsAll, IsKept, SbvGrows, Grows;
    TryFinishConfRoundKeeps(cfg, s1);
    var t := TryFinishConfRound(cfg, s1).state;
    KeepsTwice(s, s1, t);
    KeepsOne(s1, t, sender, s.epoch, Conf(vals));
    MoreOf(s1, t);
  }

  lemma HandleTermKeeps(cfg: Config, s: State, sender: nat, b: bool)
    requires Settled(cfg, s) && sender < cfg.net.n
    ensures var t := HandleTerm(cfg, s, sender, b).state;
            KeepsAll(s, t) && IsKept(t, sender, s.epoch, Term(b))
    ensures IsDrained(s) ==> IsDrained(HandleTerm(cfg, s, sender, b).state)
    decreases |s.incomingQueue|, 6, 4
  {
    var s1 := s.(receivedTerm := s.receivedTerm.Add(b, sender));
    AddGrows(s.receivedTerm, b, sender);
    GrowsItself(s.receivedTerm, s.sbv);
    MoreIsKept(s, s1);
    hide KeepsAll, SbvGrows, Grows;
    if s1.decision.Some? {
      PastIsKept(s1, sender, s.epoch, Term(b));
    } else if |s1.receivedTerm.Get(b)| > cfg.net.NumFaulty() {
      DecideKeeps(cfg, s1, b);
      KeepsTwice(s, s1, Decide(cfg, s1, b).state);
      PastIsKept(Decide(cfg, s1, b).state, sender, s.epoch, Term(b));
    } else {
      assert s1.receivedTerm.Get(!b) == s.receivedTerm.Get(!b);
      TermAsVotesKeeps(cfg, s1, sender, b);
      KeepsTwice(s, s1, TermAsVotes(cfg, s1, sender, b).state);
    }
  }

  lemma TermAsVotesKeeps(cfg: Config, s: State, sender: nat, b: bool)
    requires Settled(cfg, s) && sender < cfg.net.n && sender in s.receivedTerm.Get(b)
    ensures var t := TermAsVotes(cfg, s, sender, b).state;
            KeepsAll(s, t) && IsKept(t, sender, s.epoch, Term(b))
    ensures IsDrained(s) ==> IsDrained(TermAsVotes(cfg, s, sender, b).state)
    decreases |s.incomingQueue|, 6, 3
  {
    hide KeepsAll, IsKept, SbvGrows, Grows, CountsMore;
    var sbv := TermAsSbv(cfg, s, sender, b);
    var s1 := s.(sbv := sbv.state);
    TermAsSbvKeeps(cfg, s, sender, b);
    HandleSbvbStepKeeps(cfg, s1, sbv.step);
    var s2 := HandleSbvbStep(cfg, s1, sbv.step).state;
    HandleConfKeeps(cfg, s2, sender, {b});
    var t := HandleConf(cfg, s2, sender, {b}).state;
    KeepsTwice(s, s1, s2);
    KeepsTwice(s1, s2, t);
    KeepsTwice(s, s2, t);
    MoreOf(s1, s2);
    MoreOf(s2, t);
    TermIsCounted(s1, t, sender, b);
  }

  lemma TermAsSbvKeeps(cfg: Config, s: State, sender: nat, b: bool)
    ensures var t := s.(sbv := TermAsSbv(cfg, s, sender, b).state);
            && KeepsAll(s, t) && sender in t.sbv.receivedBval.Get(b) && sender in t.sbv.receivedAux.Get(b)
  {
    hide Sbv.HandleBval, Sbv.HandleAux, KeepsAll;
    SbvHandleBvalGrows(cfg.net, s.sbv, sender, b);
    var r1 := Sbv.HandleBval(cfg.net, s.sbv, sender, b);
    SbvHandleAuxGrows(cfg.net, r1.state, sender, b);
    GrowsItself(s.receivedTerm, s.sbv);
    MoreIsKept(s, s.(sbv := TermAsSbv(cfg, s, sender, b).state));
  }

  lemma TermIsCounted(s: State, t: State, sender: nat, b: bool)
    requires KeepsAll(s, t) && sender in s.receivedTerm.Get(b)
    requires sender in s.sbv.receivedBval.Get(b) && sender in s.sbv.receivedAux.Get(b)
    requires t.decision.None? && t.epoch == s.epoch ==> sender in t.receivedConf
    ensures IsKept(t, sender, s.epoch, Term(b))
  {
    if t.decision.None? && t.epoch == s.epoch {
      assert CountsMore(s, t);
      assert IsCounted(t, sender, Term(b));
    }
  }

  lemma HandleCoinKeeps(cfg: Config, s: State, sender: nat, share: Ts.Share)
    requires Settled(cfg, s) && sender < cfg.net.n
    ensures var t := HandleCoin(cfg, s, sender, share).state;
            KeepsAll(s, t) && IsKept(t, sender, s.epoch, Coin(share))
    ensures IsDrained(s) ==> IsDrained(HandleCoin(cfg, s, sender, share).state)
    decreases |s.incomingQueue|, 6, 4
  {
    if s.coinState.Decided? {
      KeepsItself(s);
      CountedIsKept(s, sender, Coin(share));
    } else {
      var ts := Ts.HandleShare(cfg.net, s.coinState.ts, sender, share);
      ShareGrows(cfg.net, s.coinState.ts, sender, share);
      var s1 := AfterCoin(cfg, s, ts);
      CountedIsKept(s1, sender, Coin(share));
      hide KeepsAll, IsKept, IsCounted, Ts.HandleShare;
      CoinIsKept(cfg, s, ts);
      OnCoinStepKeeps(cfg, s, ts);
      var t := OnCoinStep(cfg, s, ts).state;
      KeepsTwice(s, s1, t);
      KeepsOne(s1, t, sender, s.epoch, Coin(share));
    }
  }

  /** The state when the outcome of the coin has been noted. */
  function AfterCoin(cfg: Config, s: State, ts: Ts.Outcome): State {
    s.(coinState := if ts.step.hasOutput then Decided(CoinValue(cfg, s.epoch)) else InProgress(ts.state))
  }

  lemma CoinIsKept(cfg: Config, s: State, ts: Ts.Outcome)
    requires s.coinState.InProgress? && TsGrows(s.coinState.ts, ts.state)
    ensures KeepsAll(s, AfterCoin(cfg, s, ts))
  {
    GrowsItself(s.receivedTerm, s.sbv);
    MoreIsKept(s, AfterCoin(cfg, s, ts));
  }

  lemma OnCoinStepKeeps(cfg: Config, s: State, ts: Ts.Outcome)
    requires Settled(cfg, s) && s.coinState.InProgress? && ts.state.doc == s.epoch
    ensures KeepsAll(AfterCoin(cfg, s, ts), OnCoinStep(cfg, s, ts).state)
    ensures IsDrained(s) ==> IsDrained(OnCoinStep(cfg, s, ts).state)
    decreases |s.incomingQueue|, StateWeight(s), 2
  {
    hide KeepsAll;
    if ts.step.hasOutput {
      TryUpdateEpochKeeps(cfg, AfterCoin(cfg, s, ts));
    } else {
      KeepsItself(AfterCoin(cfg, s, ts));
    }
  }

  lemma TryFinishConfRoundKeeps(cfg: Config, s: State)
    requires Settled(cfg, s)
    ensures KeepsAll(s, TryFinishConfRound(cfg, s).state)
    ensures IsDrained(s) ==> IsDrained(TryFinishConfRound(cfg, s).state)
    decreases |s.incomingQueue|, StateWeight(s), 3
  {
    hide KeepsAll;
    if s.confValues.None? || CountConf(s) < cfg.net.NumCorrect() || s.coinState.Decided? {
      KeepsItself(s);
    } else {
      var ts := Ts.Sign(cfg.net, s.coinState.ts);
      SignGrows(cfg.net, s.coinState.ts);
      CoinIsKept(cfg, s, ts);
      OnCoinStepKeeps(cfg, s, ts);
      var t := OnCoinStep(cfg, s, ts).state;
      TryUpdateEpochKeeps(cfg, t);
      KeepsTwice(s, AfterCoin(cfg, s, ts), t);
      KeepsTwice(s, t, TryUpdateEpoch(cfg, t).state);
    }
  }

  // ----- Entry points -----

  lemma ProposeKeeps(cfg: Config, s: State, input: bool)
    requires Settled(cfg, s)
    ensures KeepsAll(s, Propose(cfg, s, input).state)
    ensures IsDrained(s) ==> IsDrained(Propose(cfg, s, input).state)
  {
    hide KeepsAll, Sbv.SendBval;
    if !CanPropose(s) {
      KeepsItself(s);
    } else {
      var r := Sbv.SendBval(cfg.net, s.sbv, input);
      var s1 := s.(estimated := Some(input), sbv := r.state);
      SendBvalGrows(cfg.net, s.sbv, input);
      GrowsItself(s.receivedTerm, s.sbv);
      MoreIsKept(s, s1);
      HandleSbvbStepKeeps(cfg, s1, r.step);
      KeepsTwice(s, s1, HandleSbvbStep(cfg, s1, r.step).state);
    }
  }

  /** The same sender has already said something else of this kind for that epoch. */
  ghost predicate SaidOther(s: State, id: nat, msg: Message) {
    exists other: Content :: IsOther(msg.content, other) && IsQueued(s, id, msg.epoch, other)
  }

  predicate IsOther(content: Content, other: Content) {
    other != content
    && ((content.Conf? && other.Conf?) || (content.Term? && other.Term?) || (content.Coin? && other.Coin?))
  }

  lemma InsertKeeps(before: ReceivedMessages, content: Content)
    ensures var after := before.Insert(content).0;
            && (forall c :: before.Has(c) ==> after.Has(c))
            && (after.Has(content) || exists other :: IsOther(content, other) && before.Has(other))
  {
    if !before.Insert(content).0.Has(content) {
      var other := match content
        case SbvBroadcast(_) => content
        case Conf(_) => Conf(before.conf.value)
        case Term(_) => Term(before.term.value)
        case Coin(_) => Coin(before.coin.value);
      assert IsOther(content, other) && before.Has(other);
    }
  }

  lemma EnqueueKeeps(s: State, id: nat, msg: Message)
    requires msg.epoch > s.epoch
    ensures var t := Enqueue(s, id, msg).state;
            && KeepsAll(s, t) && (IsDrained(s) ==> IsDrained(t))
            && (IsQueued(t, id, msg.epoch, msg.content) || SaidOther(s, id, msg))
  {
    hide ReceivedMessages.Insert, ReceivedMessages.Has, IsCounted;
    var t := Enqueue(s, id, msg).state;
    var atEpoch: Received := if msg.epoch in s.incomingQueue then s.incomingQueue[msg.epoch] else map[];
    var before := if id in atEpoch then atEpoch[id] else NOTHING_RECEIVED;
    InsertKeeps(before, msg.content);
    NothingHas();
    forall e, i, c | IsQueued(s, i, e, c) ensures IsQueued(t, i, e, c) {
    }
    forall i, e, c | IsKept(s, i, e, c) ensures IsKept(t, i, e, c) {
      if e == s.epoch && IsCounted(s, i, c) {
        QueueDoesNotMatter(s, t, i, c);
      }
    }
    SameCounts(s, t);
    if !IsQueued(t, id, msg.epoch, msg.content) {
      var other :| IsOther(msg.content, other) && before.Has(other);
      assert IsQueued(s, id, msg.epoch, other);
    }
  }

  lemma NothingHas()
    ensures forall c :: !NOTHING_RECEIVED.Has(c)
  {
  }

  lemma QueueDoesNotMatter(s: State, t: State, id: nat, content: Content)
    requires t == s.(incomingQueue := t.incomingQueue) && IsCounted(s, id, content)
    ensures IsCounted(t, id, content)
  {
  }

  lemma SameCounts(s: State, t: State)
    requires t == s.(incomingQueue := t.incomingQueue)
    ensures CountsMore(s, t)
  {
  }

  /** A message is kept, unless it is too far ahead, or its sender has contradicted itself before. */
  lemma HandleMessageKeeps(cfg: Config, s: State, sender: nat, msg: Message)
    requires Settled(cfg, s) && sender < cfg.net.n
    ensures var t := HandleMessage(cfg, s, sender, msg).state;
            && KeepsAll(s, t) && (IsDrained(s) ==> IsDrained(t))
            && (|| IsKept(t, sender, msg.epoch, msg.content)
                || msg.epoch > s.epoch + MAX_FUTURE_EPOCHS || SaidOther(s, sender, msg))
            && (msg.content.Term? && msg.epoch <= s.epoch ==> IsKept(t, sender, s.epoch, msg.content))
  {
    hide KeepsAll, IsCounted, HandleContent, Enqueue, IsQueued, Advances;
    if s.decision.Some? || (msg.epoch < s.epoch && msg.content.CanExpire()) {
      KeepsItself(s);
    } else if msg.epoch > s.epoch + MAX_FUTURE_EPOCHS {
      KeepsItself(s);
    } else if msg.epoch > s.epoch {
      EnqueueKeeps(s, sender, msg);
    } else {
      HandleContentKeeps(cfg, s, sender, msg.content);
      MoreOf(s, HandleContent(cfg, s, sender, msg.content).state);
    }
  }
}
