/** The Binary Agreement object: its methods update the fields in place, call each
    other recursively, and compute exactly what `BinaryAgreementSpec` says. */
module BinaryAgreementObject {
  import opened Options
  import opened Quorums
  import opened BoolMultimaps
  import opened BinaryAgreementSpec
  import Sbv = SbvSpec
  import Ts = ThresholdSignSpec
  import SbvObject
  import ThresholdSignObject

  datatype CoinObject = Known(value: bool) | Running(ts: ThresholdSignObject.ThresholdSign)

  class BinaryAgreement {
    const cfg: Config
    const sbvBroadcast: SbvObject.SbvBroadcast
    var epoch: nat
    var receivedConf: map<nat, set<bool>>
    var receivedTerm: BoolMultimap
    var estimated: Option<bool>
    var decision: Option<bool>
    var incomingQueue: map<nat, Received>
    var confValues: Option<set<bool>>
    var coin: CoinObject

    ghost function Repr(): set<object>
      reads this
    {
      {this, sbvBroadcast} + if coin.Running? then {coin.ts} else {}
    }

    ghost function CoinView(): CoinState
      reads Repr()
    {
      if coin.Running? then InProgress(coin.ts.View()) else Decided(coin.value)
    }

    ghost function View(): State
      reads Repr()
    {
      State(epoch, sbvBroadcast.View(), receivedConf, receivedTerm, estimated, decision,
            incomingQueue, confValues, CoinView())
    }

    ghost predicate Linked()
      reads Repr()
    {
      && sbvBroadcast.net == cfg.net
      && (coin.Running? ==> coin.ts.net == cfg.net)
    }

    ghost predicate Ready()
      reads Repr()
    {
      Linked() && Settled(cfg, View())
    }

    constructor (cfg: Config)
      ensures this.cfg == cfg && Ready() && fresh(Repr()) && View() == INITIAL
    {
      this.cfg := cfg;
      sbvBroadcast := new SbvObject.SbvBroadcast(cfg.net);
      epoch, receivedConf, receivedTerm := 0, map[], EMPTY;
      estimated, decision, incomingQueue, confValues := None, None, map[], None;
      coin := Known(true);
    }

    // ----- Entry points -----

    method Propose(input: bool) returns (step: Step)
      requires Ready()
      modifies Repr()
      ensures Ready() && fresh(Repr() - old(Repr()))
      ensures BinaryAgreementSpec.Propose(cfg, old(View()), input) == Outcome(View(), step)
    {
      if epoch != 0 || estimated.Some? {
        return NO_STEP;
      }
      estimated := Some(input);
      var sbvbStep := sbvBroadcast.SendBval(input);
      step := HandleSbvbStep(sbvbStep);
    }

    method HandleMessage(sender: nat, msg: Message) returns (step: Step)
      requires Ready() && sender < cfg.net.n
      modifies Repr()
      ensures Ready() && fresh(Repr() - old(Repr()))
      ensures BinaryAgreementSpec.HandleMessage(cfg, old(View()), sender, msg) == Outcome(View(), step)
    {
      if decision.Some? || (msg.epoch < epoch && msg.content.CanExpire()) {
        step := NO_STEP;
      } else if msg.epoch > epoch + MAX_FUTURE_EPOCHS {
        step := Step([], [], [Fault(sender, AgreementEpoch)]);
      } else if msg.epoch > epoch {
        var atEpoch: Received := if msg.epoch in incomingQueue then incomingQueue[msg.epoch] else map[];
        var before := if sender in atEpoch then atEpoch[sender] else NOTHING_RECEIVED;
        var (after, fault) := before.Insert(msg.content);
        incomingQueue := incomingQueue[msg.epoch := atEpoch[sender := after]];
        step := if fault.Some? then Step([], [], [Fault(sender, fault.value)]) else NO_STEP;
      } else {
        step := HandleMessageContent(sender, msg.content);
      }
    }

    // ----- Handlers -----

    method HandleMessageContent(sender: nat, content: Content) returns (step: Step)
      requires Ready() && sender < cfg.net.n
      modifies Repr()
      ensures Ready() && fresh(Repr() - old(Repr()))
      ensures HandleContent(cfg, old(View()), sender, content) == Outcome(View(), step)
      decreases |incomingQueue|, ContentWeight(View(), content), 5
    {
      match content {
        case SbvBroadcast(msg) => step := HandleSbvBroadcast(sender, msg);
        case Conf(vals) => step := HandleConf(sender, vals);
        case Term(b) => step := HandleTerm(sender, b);
        case Coin(share) => step := HandleCoin(sender, share);
      }
    }

    method HandleSbvBroadcast(sender: nat, msg: Sbv.Message) returns (step: Step)
      requires Ready() && sender < cfg.net.n
      modifies Repr()
      ensures Ready() && fresh(Repr() - old(Repr()))
      ensures BinaryAgreementSpec.HandleSbvBroadcast(cfg, old(View()), sender, msg) == Outcome(View(), step)
      decreases |incomingQueue|, 6, 4
    {
      var sbvbStep := sbvBroadcast.HandleMessage(sender, msg);
      step := HandleSbvbStep(sbvbStep);
    }

    method HandleSbvbStep(sbvbStep: Sbv.Step) returns (step: Step)
      requires Ready()
      modifies Repr()
      ensures Ready() && fresh(Repr() - old(Repr()))
      ensures BinaryAgreementSpec.HandleSbvbStep(cfg, old(View()), sbvbStep) == Outcome(View(), step)
      decreases |incomingQueue|, StepWeight(View(), sbvbStep), 8
    {
      step := FromSbvStep(epoch, sbvbStep);
      if confValues.Some? || sbvbStep.output == [] {
        return;
      }
      var auxVals := sbvbStep.output[0];
      var more: Step;
      if coin.Known? {
        confValues := Some(auxVals);
        more := TryUpdateEpoch();
      } else {
        more := SendConf(auxVals);
      }
      step := step.Join(more);
    }

    method SendConf(vals: set<bool>) returns (step: Step)
      requires Ready() && coin.Running?
      modifies Repr()
      ensures Ready() && fresh(Repr() - old(Repr()))
      ensures BinaryAgreementSpec.SendConf(cfg, old(View()), vals) == Outcome(View(), step)
      decreases |incomingQueue|, Weight(epoch, vals), 7
    {
      if confValues.Some? {
        return NO_STEP;
      }
      confValues := Some(vals);
      if !cfg.net.IsValidator() {
        step := TryFinishConfRound();
      } else {
        var own := Step([Message(epoch, Conf(vals))], [], []);
        var handled := HandleMessageContent(cfg.net.ourId, Conf(vals));
        step := own.Join(handled);
      }
    }

    method HandleConf(sender: nat, vals: set<bool>) returns (step: Step)
      requires Ready()
      modifies Repr()
      ensures Ready() && fresh(Repr() - old(Repr()))
      ensures BinaryAgreementSpec.HandleConf(cfg, old(View()), sender, vals) == Outcome(View(), step)
      decreases |incomingQueue|, StateWeight(View()), 4
    {
      receivedConf := receivedConf[sender := vals];
      step := TryFinishConfRound();
    }

    method HandleTerm(sender: nat, b: bool) returns (step: Step)
      requires Ready() && sender < cfg.net.n
      modifies Repr()
      ensures Ready() && fresh(Repr() - old(Repr()))
      ensures BinaryAgreementSpec.HandleTerm(cfg, old(View()), sender, b) == Outcome(View(), step)
      decreases |incomingQueue|, 6, 4
    {
      hide Settled, Valid, BinaryAgreementSpec.Decide, BinaryAgreementSpec.TermAsVotes, StepWeight, StateWeight;
      AddTerm(cfg, View(), sender, b);
      receivedTerm := receivedTerm.Add(b, sender);
      assert View() == old(View()).(receivedTerm := receivedTerm);
      if decision.Some? {
        step := NO_STEP;
      } else if |receivedTerm.Get(b)| > cfg.net.NumFaulty() {
        step := Decide(b);
      } else {
        step := TermAsVotes(sender, b);
      }
    }

    /** Handles a `Term` as `BVal`, `Aux` and `Conf`. */
    method TermAsVotes(sender: nat, b: bool) returns (step: Step)
      requires Ready() && sender < cfg.net.n
      modifies Repr()
      ensures Ready() && fresh(Repr() - old(Repr()))
      ensures BinaryAgreementSpec.TermAsVotes(cfg, old(View()), sender, b) == Outcome(View(), step)
      decreases |incomingQueue|, 6, 3
    {
      hide Settled, Valid, StepWeight, StateWeight, Sbv.HandleBval, Sbv.HandleAux;
      var bvalStep := sbvBroadcast.HandleBval(sender, b);
      var auxStep := sbvBroadcast.HandleAux(sender, b);
      SbvChange(cfg, old(View()), sbvBroadcast.View());
      step := HandleSbvbStep(bvalStep.Join(auxStep));
      var confStep := HandleConf(sender, {b});
      step := step.Join(confStep);
    }

    method HandleCoin(sender: nat, share: Ts.Share) returns (step: Step)
      requires Ready() && sender < cfg.net.n
      modifies Repr()
      ensures Ready() && fresh(Repr() - old(Repr()))
      ensures BinaryAgreementSpec.HandleCoin(cfg, old(View()), sender, share) == Outcome(View(), step)
      decreases |incomingQueue|, 6, 4
    {
      if coin.Known? {
        return NO_STEP;
      }
      ghost var before := View();
      var tsStep := coin.ts.HandleShare(sender, share);
      step := OnCoinStep(before, tsStep);
    }

    /** Applies a step of the coin, which has already changed the coin's state. */
    method OnCoinStep(ghost before: State, tsStep: Ts.Step) returns (step: Step)
      requires Ready() && coin.Running?
      requires View() == before.(coinState := InProgress(coin.ts.View()))
      requires Settled(cfg, before) && before.coinState.InProgress?
      modifies Repr()
      ensures Ready() && fresh(Repr() - old(Repr()))
      ensures BinaryAgreementSpec.OnCoinStep(cfg, before, Ts.Outcome(old(coin.ts.View()), tsStep))
           == Outcome(View(), step)
      decreases |incomingQueue|, StateWeight(View()), 2
    {
      step := FromCoinStep(epoch, tsStep);
      if tsStep.hasOutput {
        coin := Known(CoinValue(cfg, epoch));
        var more := TryUpdateEpoch();
        step := step.Join(more);
      }
    }

    method TryFinishConfRound() returns (step: Step)
      requires Ready()
      modifies Repr()
      ensures Ready() && fresh(Repr() - old(Repr()))
      ensures BinaryAgreementSpec.TryFinishConfRound(cfg, old(View())) == Outcome(View(), step)
      decreases |incomingQueue|, StateWeight(View()), 3
    {
      var count := CountConf();
      if confValues.None? || count < cfg.net.NumCorrect() || coin.Known? {
        return NO_STEP;
      }
      ghost var before := View();
      var tsStep := coin.ts.Sign();
      step := OnCoinStep(before, tsStep);
      var more := TryUpdateEpoch();
      step := step.Join(more);
    }

    method CountConf() returns (count: nat)
      ensures count == BinaryAgreementSpec.CountConf(View())
    {
      var counted := set id | id in receivedConf && receivedConf[id] <= sbvBroadcast.binValues;
      assert counted == CountedConfs(View());
      count := |counted|;
    }

    method TryUpdateEpoch() returns (step: Step)
      requires Linked() && Valid(cfg, View())
      modifies Repr()
      ensures Ready() && fresh(Repr() - old(Repr()))
      ensures BinaryAgreementSpec.TryUpdateEpoch(cfg, old(View())) == Outcome(View(), step)
      decreases |incomingQueue|, FinishWeight(View()), 1
    {
      if decision.Some? || coin.Running? || confValues.None? {
        return NO_STEP;
      }
      var definite := Definite(confValues.value);
      if definite == Some(coin.value) {
        step := Decide(coin.value);
      } else {
        step := UpdateEpoch(if definite.Some? then definite.value else coin.value);
      }
    }

    method Decide(b: bool) returns (step: Step)
      requires Linked() && Valid(cfg, if decision.None? then View().(decision := Some(b)) else View())
      modifies this`decision
      ensures Ready() && fresh(Repr() - old(Repr()))
      ensures BinaryAgreementSpec.Decide(cfg, old(View()), b) == Outcome(View(), step)
    {
      if decision.Some? {
        return NO_STEP;
      }
      decision := Some(b);
      step := Step(if cfg.net.IsValidator() then [Message(epoch + 1, Term(b))] else [], [b], []);
    }

    method UpdateEpoch(b: bool) returns (step: Step)
      requires Linked() && Valid(cfg, View()) && decision.None?
      modifies Repr()
      ensures Ready() && fresh(Repr() - old(Repr()))
      ensures BinaryAgreementSpec.UpdateEpoch(cfg, old(View()), b) == Outcome(View(), step)
      decreases |incomingQueue|, Distance(epoch + 1, b) + 1, 10
    {
      hide Settled, Valid, BinaryAgreementSpec.StartEpoch, BinaryAgreementSpec.DrainQueue;
      step := StartEpoch(b);
      var more := DrainQueue();
      step := step.Join(more);
    }

    method StartEpoch(b: bool) returns (step: Step)
      requires Linked() && Valid(cfg, View()) && decision.None?
      modifies Repr()
      ensures Ready() && fresh(Repr() - old(Repr()))
      ensures BinaryAgreementSpec.StartEpoch(cfg, old(View()), b) == Outcome(View(), step)
      decreases |incomingQueue|, Distance(epoch + 1, b) + 1, 9
    {
      hide Settled, Valid, StepWeight, Distance, BinaryAgreementSpec.EnterEpoch;
      var sbvbStep := EnterEpoch(b);
      step := HandleSbvbStep(sbvbStep);
    }

    /** Resets what belongs to one epoch, and sends our estimate for the next. */
    method EnterEpoch(b: bool) returns (sbvbStep: Sbv.Step)
      requires Linked() && Valid(cfg, View()) && decision.None?
      modifies Repr()
      ensures Ready() && fresh(Repr() - old(Repr()))
      ensures BinaryAgreementSpec.EnterEpoch(cfg, old(View()), b) == (View(), sbvbStep)
    {
      hide Settled, Valid, Sbv.SendBval, StepWeight, Distance;
      sbvBroadcast.Clear(receivedTerm);
      ResetConf();
      confValues := None;
      epoch := epoch + 1;
      if epoch % 3 == 0 {
        coin := Known(true);
      } else if epoch % 3 == 1 {
        coin := Known(false);
      } else {
        var ts := new ThresholdSignObject.ThresholdSign(cfg.net, epoch);
        coin := Running(ts);
      }
      estimated := Some(b);
      sbvbStep := sbvBroadcast.SendBval(b);
      assert BinaryAgreementSpec.EnterEpoch(cfg, old(View()), b) == (View(), sbvbStep);
    }

    /** Replaces the received `Conf` messages by those that the `Term`s stand for. */
    method ResetConf()
      modifies this`receivedConf
      ensures receivedConf == TermsAsConf(receivedTerm)
    {
      var conf := InsertAll(map[], receivedTerm.no, {false});
      receivedConf := InsertAll(conf, receivedTerm.yes, {true});
    }

    /** Handles the messages queued for this epoch, if any. */
    method DrainQueue() returns (step: Step)
      requires Ready()
      modifies Repr()
      ensures Ready() && fresh(Repr() - old(Repr()))
      ensures BinaryAgreementSpec.DrainQueue(cfg, old(View())) == Outcome(View(), step)
      decreases |incomingQueue|, 0, 9
    {
      hide Settled, Valid, HandleQueued;
      if epoch !in incomingQueue {
        return NO_STEP;
      }
      var queued := Flatten(incomingQueue[epoch], cfg.net.n);
      RemoveKey(incomingQueue, epoch);
      FlattenSenders(incomingQueue[epoch], cfg.net.n);
      Removal(cfg, View());
      incomingQueue := incomingQueue - {epoch};
      step := HandleAll(queued);
    }

    /** Handles queued messages until the epoch is over. */
    method HandleAll(queued: seq<(nat, Content)>) returns (step: Step)
      requires Ready()
      requires forall i :: 0 <= i < |queued| ==> queued[i].0 < cfg.net.n
      modifies Repr()
      ensures Ready() && fresh(Repr() - old(Repr()))
      ensures HandleQueued(cfg, old(View()), old(epoch), queued) == Outcome(View(), step)
      decreases |incomingQueue|, 7
    {
      hide Settled, Valid, HandleContent, HandleQueued;
      var started := epoch;
      ghost var all := HandleQueued(cfg, View(), started, queued);
      ghost var queueSize := |incomingQueue|;
      step := NO_STEP;
      var k := 0;
      QueueStart(cfg, View(), started, queued);
      while k < |queued|
        invariant k <= |queued|
        invariant Ready() && fresh(Repr() - old(Repr())) && |incomingQueue| <= queueSize
        invariant Remaining(all, cfg, View(), started, queued, k, step)
      {
        ghost var before := View();
        var more := HandleMessageContent(queued[k].0, queued[k].1);
        QueueStep(cfg, before, started, queued, k, all, step, Outcome(View(), more));
        step := step.Join(more);
        k := k + 1;
        if decision.Some? || epoch > started {
          return;
        }
      }
      QueueEnd(all, cfg, View(), started, queued, step);
    }
  }

  /** Sets the entry of every node in `ids` to `value`. */
  method InsertAll<V>(m: map<nat, V>, ids: set<nat>, value: V) returns (r: map<nat, V>)
    ensures forall id :: id in r <==> id in m || id in ids
    ensures forall id :: id in r ==> r[id] == if id in ids then value else m[id]
  {
    r := m;
    var rest := ids;
    while rest != {}
      invariant rest <= ids
      invariant forall id :: id in r <==> id in m || (id in ids && id !in rest)
      invariant forall id :: id in r ==> r[id] == if id in ids && id !in rest then value else m[id]
      decreases |rest|
    {
      var id :| id in rest;
      r := r[id := value];
      rest := rest - {id};
    }
  }

  lemma SbvChange(cfg: Config, s: State, sbv: Sbv.State)
    requires Settled(cfg, s)
    ensures Settled(cfg, s.(sbv := sbv))
  {
  }

  lemma Removal(cfg: Config, s: State)
    requires Settled(cfg, s)
    ensures Settled(cfg, Dequeue(s))
  {
  }

  /** Counting one more `Term` leaves the state settled, or calls for a decision. */
  lemma AddTerm(cfg: Config, s: State, sender: nat, b: bool)
    requires Settled(cfg, s)
    ensures var s1 := s.(receivedTerm := s.receivedTerm.Add(b, sender));
            if s.decision.None? && |s1.receivedTerm.Get(b)| > cfg.net.NumFaulty()
            then Valid(cfg, s1.(decision := Some(b)))
            else Settled(cfg, s1)
  {
    var s1 := s.(receivedTerm := s.receivedTerm.Add(b, sender));
    assert s1.receivedTerm.Get(!b) == s.receivedTerm.Get(!b);
  }

  // ----- The loop over queued messages -----

  /** After having produced `step`, handling the rest of `queued` from `k` on completes `all`. */
  ghost predicate Remaining(
    all: Outcome, cfg: Config, s: State, epoch: nat, queued: seq<(nat, Content)>, k: nat, step: Step)
    requires Settled(cfg, s) && k <= |queued|
    requires forall i :: 0 <= i < |queued| ==> queued[i].0 < cfg.net.n
  {
    var rest := HandleQueued(cfg, s, epoch, queued[k..]);
    all == Outcome(rest.state, step.Join(rest.step))
  }

  lemma QueueStart(cfg: Config, s: State, epoch: nat, queued: seq<(nat, Content)>)
    requires Settled(cfg, s)
    requires forall i :: 0 <= i < |queued| ==> queued[i].0 < cfg.net.n
    ensures Remaining(HandleQueued(cfg, s, epoch, queued), cfg, s, epoch, queued, 0, NO_STEP)
  {
    hide Settled, HandleQueued;
    assert queued[0..] == queued;
  }

  lemma QueueEnd(all: Outcome, cfg: Config, s: State, epoch: nat, queued: seq<(nat, Content)>, step: Step)
    requires Settled(cfg, s)
    requires forall i :: 0 <= i < |queued| ==> queued[i].0 < cfg.net.n
    requires Remaining(all, cfg, s, epoch, queued, |queued|, step)
    ensures all == Outcome(s, step)
  {
    hide Settled;
    assert queued[|queued|..] == [];
  }

  /** Handling one more queued message. */
  lemma QueueStep(
    cfg: Config, s: State, epoch: nat, queued: seq<(nat, Content)>, k: nat, all: Outcome, step: Step, r: Outcome)
    requires Settled(cfg, s) && Settled(cfg, r.state) && k < |queued|
    requires forall i :: 0 <= i < |queued| ==> queued[i].0 < cfg.net.n
    requires Remaining(all, cfg, s, epoch, queued, k, step)
    requires r == HandleContent(cfg, s, queued[k].0, queued[k].1)
    ensures if r.state.decision.Some? || r.state.epoch > epoch
            then all == Outcome(r.state, step.Join(r.step))
            else Remaining(all, cfg, r.state, epoch, queued, k + 1, step.Join(r.step))
  {
    hide Settled, HandleContent;
    assert queued[k..][1..] == queued[k + 1..];
    if r.state.decision.None? && r.state.epoch <= epoch {
      JoinAssociative(step, r.step, HandleQueued(cfg, r.state, epoch, queued[k + 1..]).step);
    }
  }

  lemma JoinAssociative(a: Step, b: Step, c: Step)
    ensures a.Join(b).Join(c) == a.Join(b.Join(c))
  {
  }
}
