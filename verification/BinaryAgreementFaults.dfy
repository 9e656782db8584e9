/** What Binary Agreement reports: messages that come twice, contradict each other, are far too early, or
    carry forged shares. */
module BinaryAgreementFaults {
  import opened Options
  import opened Quorums
  import opened BoolMultimaps
  import opened BinaryAgreementSpec
  import opened BinaryAgreementRecords
  import Sbv = SbvSpec
  import Ts = ThresholdSignSpec
  import SbvThresholds

  /** At most one of these may come from one node in one epoch. */
  predicate Clash(c: Content, d: Content) {
    match c
    case SbvBroadcast(_) => c == d
    case Conf(_) => d.Conf?
    case Term(_) => d.Term?
    case Coin(_) => d.Coin?
  }

  function ClashFault(c: Content): FaultKind {
    match c
    case SbvBroadcast(msg) => if msg.BVal? then DuplicateBVal else DuplicateAux
    case Conf(_) => MultipleConf
    case Term(_) => MultipleTerm
    case Coin(_) => AgreementEpoch
  }

  /** What this message proves about its sender. */
  ghost predicate Accuses(s: State, sender: nat, msg: Message, kind: FaultKind) {
    if msg.epoch > s.epoch + MAX_FUTURE_EPOCHS then kind == AgreementEpoch
    else if msg.epoch > s.epoch then
      && kind == ClashFault(msg.content)
      && exists c :: Clash(msg.content, c) && IsQueued(s, sender, msg.epoch, c)
    else
      && msg.epoch == s.epoch
      && match msg.content
         case SbvBroadcast(m) =>
           && SbvThresholds.IsDuplicate(s.sbv, sender, m)
           && kind == SbvFault(if m.BVal? then Sbv.DuplicateBVal else Sbv.DuplicateAux)
         case Coin(share) =>
           && s.coinState.InProgress? && !s.coinState.ts.terminated
           && share != Ts.Share(sender, s.epoch) && kind == CoinFault
         case Conf(_) => false
         case Term(_) => false
  }

  lemma InsertReports(before: ReceivedMessages, content: Content)
    ensures var (after, fault) := before.Insert(content);
            if exists c :: Clash(content, c) && before.Has(c) then after == before && fault == Some(ClashFault(content))
            else fault == None
  {
    match content
    case SbvBroadcast(_) => assert Clash(content, content);
    case Conf(_) =>
      if before.conf.Some? {
        assert before.Has(Conf(before.conf.value));
      }
    case Term(_) =>
      if before.term.Some? {
        assert before.Has(Term(before.term.value));
      }
    case Coin(_) =>
      if before.coin.Some? {
        assert before.Has(Coin(before.coin.value));
      }
  }

  lemma EnqueueReports(s: State, id: nat, msg: Message)
    requires msg.epoch > s.epoch
    ensures var r := Enqueue(s, id, msg);
            if exists c :: Clash(msg.content, c) && IsQueued(s, id, msg.epoch, c) then
              r == Outcome(s, Step([], [], [Fault(id, ClashFault(msg.content))]))
            else r.step == NO_STEP
  {
    hide ReceivedMessages.Insert, ReceivedMessages.Has, Clash;
    var atEpoch: Received := if msg.epoch in s.incomingQueue then s.incomingQueue[msg.epoch] else map[];
    var before := if id in atEpoch then atEpoch[id] else NOTHING_RECEIVED;
    InsertReports(before, msg.content);
    NothingHas();
    assert forall c :: before.Has(c) <==> IsQueued(s, id, msg.epoch, c);
    if c :| Clash(msg.content, c) && IsQueued(s, id, msg.epoch, c) {
      assert before.Has(c);
      assert atEpoch[id := before] == s.incomingQueue[msg.epoch];
      assert s.incomingQueue[msg.epoch := atEpoch[id := before]] == s.incomingQueue;
    }
  }

  /** Whatever proves a fault of its sender is reported as that, and does nothing else. For messages
      that are too early nothing else is reported. */
  lemma MisbehaviourIsReported(cfg: Config, s: State, sender: nat, msg: Message)
    requires Settled(cfg, s) && sender < cfg.net.n && s.decision.None?
    ensures forall kind :: Accuses(s, sender, msg, kind) ==>
              HandleMessage(cfg, s, sender, msg) == Outcome(s, Step([], [], [Fault(sender, kind)]))
    ensures msg.epoch > s.epoch && (forall kind :: !Accuses(s, sender, msg, kind)) ==>
              HandleMessage(cfg, s, sender, msg).step == NO_STEP
  {
    if msg.epoch > s.epoch + MAX_FUTURE_EPOCHS {
    } else if msg.epoch > s.epoch {
      EnqueueReports(s, sender, msg);
      hide Enqueue;
      assert HandleMessage(cfg, s, sender, msg) == Enqueue(s, sender, msg);
      assert (forall kind :: !Accuses(s, sender, msg, kind)) ==> !Accuses(s, sender, msg, ClashFault(msg.content));
    } else {
      forall kind | Accuses(s, sender, msg, kind)
        ensures HandleMessage(cfg, s, sender, msg) == Outcome(s, Step([], [], [Fault(sender, kind)]))
      {
        if msg.content.SbvBroadcast? {
          DuplicateIsReported(cfg, s, sender, msg.content.msg);
        } else {
          ForgeryIsReported(cfg, s, sender, msg.content.share);
        }
      }
    }
  }

  lemma DuplicateIsReported(cfg: Config, s: State, sender: nat, m: Sbv.Message)
    requires Settled(cfg, s) && sender < cfg.net.n && s.decision.None? && SbvThresholds.IsDuplicate(s.sbv, sender, m)
    ensures var kind := SbvFault(if m.BVal? then Sbv.DuplicateBVal else Sbv.DuplicateAux);
            HandleMessage(cfg, s, sender, Message(s.epoch, SbvBroadcast(m)))
            == Outcome(s, Step([], [], [Fault(sender, kind)]))
  {
    var r := Sbv.HandleMessage(cfg.net, s.sbv, sender, m);
    var kind := if m.BVal? then Sbv.DuplicateBVal else Sbv.DuplicateAux;
    assert r == Sbv.Outcome(s.sbv, Sbv.Step([], [], [Sbv.Fault(sender, kind)]));
    assert FromSbvStep(s.epoch, r.step) == Step([], [], [Fault(sender, SbvFault(kind))]);
    hide Sbv.HandleMessage;
    assert HandleContent(cfg, s, sender, SbvBroadcast(m)) == HandleSbvBroadcast(cfg, s, sender, m);
  }

  lemma ForgeryIsReported(cfg: Config, s: State, sender: nat, share: Ts.Share)
    requires Settled(cfg, s) && sender < cfg.net.n && s.decision.None?
    requires s.coinState.InProgress? && !s.coinState.ts.terminated && share != Ts.Share(sender, s.epoch)
    ensures HandleMessage(cfg, s, sender, Message(s.epoch, Coin(share)))
            == Outcome(s, Step([], [], [Fault(sender, CoinFault)]))
  {
    var r := Ts.HandleShare(cfg.net, s.coinState.ts, sender, share);
    assert r == Ts.Outcome(s.coinState.ts, Ts.Step([], false, [sender]));
    assert FromCoinStep(s.epoch, r.step) == Step([], [], [Fault(sender, CoinFault)]);
    hide Ts.HandleShare;
    assert HandleContent(cfg, s, sender, Coin(share)) == HandleCoin(cfg, s, sender, share);
  }
}
