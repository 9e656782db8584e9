/** What one node of a Binary Agreement instance may claim about the messages it has
    heard: the certificates behind every message it sends and every decision it makes. */
module BinaryAgreementHistory {
  import opened Options
  import opened Quorums
  import opened BinaryAgreementSpec
  import Sbv = SbvSpec
  import Ts = ThresholdSignSpec

  /** All messages a node has received or sent, with their senders, and the values
      that were put into it. */
  datatype History = History(heard: set<(nat, Message)>, proposed: set<bool>)

  ghost predicate Extends(h: History, h': History) {
    h.heard <= h'.heard && h.proposed <= h'.proposed
  }

  /** The history after also sending `messages`. */
  function Extend(cfg: Config, h: History, messages: seq<Message>): History {
    h.(heard := h.heard + set m | m in messages :: (cfg.net.ourId, m))
  }

  predicate Said(h: History, id: nat, epoch: nat, content: Content) {
    (id, Message(epoch, content)) in h.heard
  }

  // ----- Votes -----

  /** `id` announced the decision `b` before or at `epoch`. */
  ghost predicate TermBy(h: History, epoch: nat, b: bool, id: nat) {
    exists t: nat :: t <= epoch && Said(h, id, t, Term(b))
  }

  ghost predicate BvalVote(h: History, epoch: nat, b: bool, id: nat) {
    Said(h, id, epoch, SbvBroadcast(Sbv.BVal(b))) || TermBy(h, epoch, b, id)
  }

  ghost predicate AuxVote(h: History, epoch: nat, b: bool, id: nat) {
    Said(h, id, epoch, SbvBroadcast(Sbv.Aux(b))) || TermBy(h, epoch, b, id)
  }

  /** `id` confirmed exactly the values `vals`. */
  ghost predicate Confirmed(h: History, epoch: nat, vals: set<bool>, id: nat) {
    Said(h, id, epoch, Conf(vals)) || exists b :: vals == {b} && TermBy(h, epoch, b, id)
  }

  ghost predicate ConfVote(h: History, epoch: nat, vals: set<bool>, id: nat) {
    exists c: set<bool> :: c <= vals && Confirmed(h, epoch, c, id)
  }

  ghost predicate CoinVote(h: History, epoch: nat, id: nat) {
    Said(h, id, epoch, Coin(Ts.Share(id, epoch)))
  }

  ghost function TermVoters(cfg: Config, h: History, epoch: nat, b: bool): set<nat> {
    set id: nat | id < cfg.net.n && TermBy(h, epoch, b, id)
  }

  ghost function BvalVoters(cfg: Config, h: History, epoch: nat, b: bool): set<nat> {
    set id: nat | id < cfg.net.n && BvalVote(h, epoch, b, id)
  }

  ghost function AuxVoters(cfg: Config, h: History, epoch: nat, b: bool): set<nat> {
    set id: nat | id < cfg.net.n && AuxVote(h, epoch, b, id)
  }

  ghost function ConfVoters(cfg: Config, h: History, epoch: nat, vals: set<bool>): set<nat> {
    set id: nat | id < cfg.net.n && ConfVote(h, epoch, vals, id)
  }

  ghost function CoinVoters(cfg: Config, h: History, epoch: nat): set<nat> {
    set id: nat | id < cfg.net.n && CoinVote(h, epoch, id)
  }

  // ----- Certificates -----

  /** `2f + 1` nodes support `b` in this epoch. */
  ghost predicate Believed(cfg: Config, h: History, epoch: nat, b: bool) {
    |BvalVoters(cfg, h, epoch, b)| >= 2 * cfg.net.NumFaulty() + 1
  }

  /** `vals` may be the output of Synchronized BV Broadcast in this epoch. */
  ghost predicate OutputCert(cfg: Config, h: History, epoch: nat, vals: set<bool>) {
    && vals != {}
    && (forall b :: b in vals ==> Believed(cfg, h, epoch, b))
    && (forall b :: vals == {b} ==> |AuxVoters(cfg, h, epoch, b)| >= cfg.net.NumCorrect())
  }

  /** The next estimate, if the epoch ends with `vals` and without a decision. */
  function EstimateAfter(cfg: Config, epoch: nat, vals: set<bool>): bool {
    if Definite(vals).Some? then Definite(vals).value else CoinValue(cfg, epoch)
  }

  /** The previous epoch had the output `vals`, which led to the estimate `b` in this one. */
  ghost predicate Enters(cfg: Config, h: History, epoch: nat, vals: set<bool>, b: bool) {
    && epoch > 0
    && OutputCert(cfg, h, epoch - 1, vals)
    && Definite(vals) != Some(CoinValue(cfg, epoch - 1))
    && b == EstimateAfter(cfg, epoch - 1, vals)
  }

  /** The node may start `epoch` with the estimate `b`. */
  ghost predicate CanEnter(cfg: Config, h: History, epoch: nat, b: bool) {
    if epoch == 0 then b in h.proposed
    else exists vals: set<bool> :: Enters(cfg, h, epoch, vals, b)
  }

  /** The node may send `BVal(b)`: as its own estimate, or to repeat `f + 1` others. */
  ghost predicate BvalJustified(cfg: Config, h: History, epoch: nat, b: bool) {
    || CanEnter(cfg, h, epoch, b)
    || |BvalVoters(cfg, h, epoch, b) - {cfg.net.ourId}| > cfg.net.NumFaulty()
  }

  /** The node may decide `b`: the coin agrees, or `f + 1` others have decided. */
  ghost predicate DecisionCert(cfg: Config, h: History, epoch: nat, b: bool) {
    || (CoinValue(cfg, epoch) == b && OutputCert(cfg, h, epoch, {b}))
    || |TermVoters(cfg, h, epoch, b) - {cfg.net.ourId}| > cfg.net.NumFaulty()
  }

  /** `N - f` nodes confirmed only values in `vals`, which are all believed. */
  ghost predicate ConfRound(cfg: Config, h: History, epoch: nat, vals: set<bool>) {
    && (forall b :: b in vals ==> Believed(cfg, h, epoch, b))
    && |ConfVoters(cfg, h, epoch, vals)| >= cfg.net.NumCorrect()
  }

  ghost predicate ConfRoundDone(cfg: Config, h: History, epoch: nat) {
    exists vals: set<bool> :: ConfRound(cfg, h, epoch, vals)
  }

  /** The node may release its coin share. */
  ghost predicate CoinJustified(cfg: Config, h: History, epoch: nat) {
    || ConfRoundDone(cfg, h, epoch)
    || |CoinVoters(cfg, h, epoch) - {cfg.net.ourId}| > cfg.net.NumFaulty()
  }

  // ----- The invariant of a node -----

  /** The part about Synchronized BV Broadcast in the current epoch. */
  ghost predicate SbvInv(cfg: Config, h: History, epoch: nat, s: Sbv.State) {
    && (forall b :: s.receivedBval.Get(b) <= BvalVoters(cfg, h, epoch, b))
    && (forall b :: s.receivedAux.Get(b) <= AuxVoters(cfg, h, epoch, b))
    && (forall b :: b in s.binValues ==> |s.receivedBval.Get(b)| >= 2 * cfg.net.NumFaulty() + 1)
    && (forall b :: cfg.net.ourId in s.receivedBval.Get(b) ==> b in s.sentBval)
    && (forall e: nat, b :: Said(h, cfg.net.ourId, e, SbvBroadcast(Sbv.BVal(b))) ==>
          && e <= epoch
          && BvalJustified(cfg, h, e, b)
          && (e == epoch ==> b in s.sentBval))
    && OwnAux(cfg, h, epoch, s.binValues)
  }

  /** We send `Aux` at most once per epoch, for a value that we believe in. */
  ghost predicate OwnAux(cfg: Config, h: History, epoch: nat, binValues: set<bool>) {
    && (forall e: nat, b :: Said(h, cfg.net.ourId, e, SbvBroadcast(Sbv.Aux(b))) ==>
          && e <= epoch
          && Believed(cfg, h, e, b)
          && (e == epoch ==> b in binValues))
    && (forall e: nat ::
          !(Said(h, cfg.net.ourId, e, SbvBroadcast(Sbv.Aux(false)))
            && Said(h, cfg.net.ourId, e, SbvBroadcast(Sbv.Aux(true)))))
  }

  ghost predicate QueueInv(cfg: Config, h: History, queue: map<nat, Received>) {
    forall e, id, c ::
      e in queue && id in queue[e] && c in queue[e][id].Contents() ==>
        Said(h, id, e, c) && id != cfg.net.ourId
  }

  ghost predicate CoinInv(cfg: Config, h: History, epoch: nat, ts: Ts.State) {
    && ts.receivedShares.Keys <= CoinVoters(cfg, h, epoch)
    && (cfg.net.ourId in ts.receivedShares ==> ts.hadInput)
  }

  ghost predicate OwnTerm(cfg: Config, h: History, epoch: nat, decision: Option<bool>) {
    forall t: nat, b :: Said(h, cfg.net.ourId, t, Term(b)) ==> t == epoch + 1 && decision == Some(b)
  }

  /** We release only our own share of the coin, and confirm only what we believe in. */
  ghost predicate OwnCoin(cfg: Config, h: History) {
    && (forall e: nat, c :: Said(h, cfg.net.ourId, e, Coin(c)) ==>
          CoinJustified(cfg, h, e) && c == Ts.Share(cfg.net.ourId, e))
    && OwnConf(cfg, h)
  }

  ghost predicate OwnConf(cfg: Config, h: History) {
    forall e: nat, v, b :: Said(h, cfg.net.ourId, e, Conf(v)) && b in v ==> Believed(cfg, h, e, b)
  }

  /** The part about the rest of the state. */
  ghost predicate StateInv(cfg: Config, h: History, s: State) {
    && (forall b :: s.receivedTerm.Get(b) <= TermVoters(cfg, h, s.epoch, b) - {cfg.net.ourId})
    && (forall id :: id in s.receivedConf ==>
          id < cfg.net.n && Confirmed(h, s.epoch, s.receivedConf[id], id))
    && (s.confValues.Some? ==> OutputCert(cfg, h, s.epoch, s.confValues.value))
    && (s.estimated.Some? ==> CanEnter(cfg, h, s.epoch, s.estimated.value))
    && (s.decision.Some? ==> DecisionCert(cfg, h, s.epoch, s.decision.value))
    && QueueInv(cfg, h, s.incomingQueue)
    && (s.coinState.InProgress? ==> CoinInv(cfg, h, s.epoch, s.coinState.ts))
  }

  ghost predicate NodeInv(cfg: Config, h: History, s: State) {
    && SbvInv(cfg, h, s.epoch, s.sbv)
    && StateInv(cfg, h, s)
    && OwnTerm(cfg, h, s.epoch, s.decision)
    && OwnCoin(cfg, h)
  }

  // ----- Histories only grow, and certificates stay valid -----

  lemma VotersGrow(cfg: Config, h: History, h': History)
    requires Extends(h, h')
    ensures forall e: nat, b :: TermVoters(cfg, h, e, b) <= TermVoters(cfg, h', e, b)
    ensures forall e: nat, b :: BvalVoters(cfg, h, e, b) <= BvalVoters(cfg, h', e, b)
    ensures forall e: nat, b :: AuxVoters(cfg, h, e, b) <= AuxVoters(cfg, h', e, b)
    ensures forall e: nat :: CoinVoters(cfg, h, e) <= CoinVoters(cfg, h', e)
    ensures forall e: nat, v :: ConfVoters(cfg, h, e, v) <= ConfVoters(cfg, h', e, v)
  {
    forall e, b, id | TermBy(h, e, b, id) ensures TermBy(h', e, b, id) {
      var t: nat :| t <= e && Said(h, id, t, Term(b));
      assert Said(h', id, t, Term(b));
    }
    forall e, v, id | ConfVote(h, e, v, id) ensures ConfVote(h', e, v, id) {
      var c: set<bool> :| c <= v && Confirmed(h, e, c, id);
      assert Confirmed(h', e, c, id);
    }
  }

  lemma CertsGrow(cfg: Config, h: History, h': History)
    requires Extends(h, h')
    ensures forall e: nat, b :: Believed(cfg, h, e, b) ==> Believed(cfg, h', e, b)
    ensures forall e: nat, v :: OutputCert(cfg, h, e, v) ==> OutputCert(cfg, h', e, v)
    ensures forall e: nat, b :: BvalJustified(cfg, h, e, b) ==> BvalJustified(cfg, h', e, b)
    ensures forall e: nat, b :: CanEnter(cfg, h, e, b) ==> CanEnter(cfg, h', e, b)
    ensures forall e: nat, b :: DecisionCert(cfg, h, e, b) ==> DecisionCert(cfg, h', e, b)
    ensures forall e: nat :: CoinJustified(cfg, h, e) ==> CoinJustified(cfg, h', e)
  {
    VotersGrow(cfg, h, h');
    var us := {cfg.net.ourId};
    forall e: nat, b
      ensures |BvalVoters(cfg, h, e, b)| <= |BvalVoters(cfg, h', e, b)|
      ensures |AuxVoters(cfg, h, e, b)| <= |AuxVoters(cfg, h', e, b)|
      ensures |BvalVoters(cfg, h, e, b) - us| <= |BvalVoters(cfg, h', e, b) - us|
      ensures |TermVoters(cfg, h, e, b) - us| <= |TermVoters(cfg, h', e, b) - us|
    {
      SubsetSize(BvalVoters(cfg, h, e, b), BvalVoters(cfg, h', e, b));
      SubsetSize(AuxVoters(cfg, h, e, b), AuxVoters(cfg, h', e, b));
      SubsetSize(BvalVoters(cfg, h, e, b) - us, BvalVoters(cfg, h', e, b) - us);
      SubsetSize(TermVoters(cfg, h, e, b) - us, TermVoters(cfg, h', e, b) - us);
    }
    forall e: nat, b | CanEnter(cfg, h, e, b) ensures CanEnter(cfg, h', e, b) {
      if e > 0 {
        var vals: set<bool> :| Enters(cfg, h, e, vals, b);
        assert Enters(cfg, h', e, vals, b);
      }
    }
    forall e | CoinJustified(cfg, h, e) ensures CoinJustified(cfg, h', e) {
      SubsetSize(CoinVoters(cfg, h, e) - us, CoinVoters(cfg, h', e) - us);
      if ConfRoundDone(cfg, h, e) {
        var vals: set<bool> :| ConfRound(cfg, h, e, vals);
        SubsetSize(ConfVoters(cfg, h, e, vals), ConfVoters(cfg, h', e, vals));
        assert ConfRound(cfg, h', e, vals);
      }
    }
  }

  /** Messages of `h'` that we sent and that are not in `h`. */
  ghost predicate NewOwn(cfg: Config, h: History, h': History, m: Message) {
    (cfg.net.ourId, m) in h'.heard && (cfg.net.ourId, m) !in h.heard
  }

  lemma SbvInvGrows(cfg: Config, h: History, h': History, epoch: nat, s: Sbv.State)
    requires SbvInv(cfg, h, epoch, s) && Extends(h, h')
    requires forall m :: NewOwn(cfg, h, h', m) ==> !m.content.SbvBroadcast?
    ensures SbvInv(cfg, h', epoch, s)
  {
    VotersGrow(cfg, h, h');
    CertsGrow(cfg, h, h');
    forall e, m: Sbv.Message | Said(h', cfg.net.ourId, e, SbvBroadcast(m))
      ensures Said(h, cfg.net.ourId, e, SbvBroadcast(m))
    {
      assert !NewOwn(cfg, h, h', Message(e, SbvBroadcast(m)));
    }
  }

  lemma StateInvGrows(cfg: Config, h: History, h': History, s: State)
    requires StateInv(cfg, h, s) && Extends(h, h')
    ensures StateInv(cfg, h', s)
  {
    VotersGrow(cfg, h, h');
    CertsGrow(cfg, h, h');
    forall id | id in s.receivedConf ensures Confirmed(h', s.epoch, s.receivedConf[id], id) {
      ConfirmedGrows(cfg, h, h', s.epoch, s.receivedConf[id], id);
    }
  }

  lemma ConfirmedGrows(cfg: Config, h: History, h': History, epoch: nat, vals: set<bool>, id: nat)
    requires Confirmed(h, epoch, vals, id) && Extends(h, h')
    ensures Confirmed(h', epoch, vals, id)
  {
    if !Said(h, id, epoch, Conf(vals)) {
      var b :| vals == {b} && TermBy(h, epoch, b, id);
      var t: nat :| t <= epoch && Said(h, id, t, Term(b));
      assert Said(h', id, t, Term(b));
    }
  }

  lemma OwnTermGrows(cfg: Config, h: History, h': History, epoch: nat, decision: Option<bool>)
    requires OwnTerm(cfg, h, epoch, decision) && Extends(h, h')
    requires forall m :: NewOwn(cfg, h, h', m) ==> !m.content.Term?
    ensures OwnTerm(cfg, h', epoch, decision)
  {
    forall t: nat, b | Said(h', cfg.net.ourId, t, Term(b)) ensures Said(h, cfg.net.ourId, t, Term(b)) {
      assert !NewOwn(cfg, h, h', Message(t, Term(b)));
    }
  }

  lemma OwnCoinGrows(cfg: Config, h: History, h': History)
    requires OwnCoin(cfg, h) && Extends(h, h')
    requires forall m :: NewOwn(cfg, h, h', m) ==> !m.content.Coin? && !m.content.Conf?
    ensures OwnCoin(cfg, h')
  {
    CertsGrow(cfg, h, h');
    hide CoinJustified, Believed;
    forall e: nat, c | Said(h', cfg.net.ourId, e, Coin(c)) ensures Said(h, cfg.net.ourId, e, Coin(c)) {
      assert !NewOwn(cfg, h, h', Message(e, Coin(c)));
    }
    forall e: nat, v | Said(h', cfg.net.ourId, e, Conf(v)) ensures Said(h, cfg.net.ourId, e, Conf(v)) {
      assert !NewOwn(cfg, h, h', Message(e, Conf(v)));
    }
  }

  lemma ExtendTwice(cfg: Config, h: History, m1: seq<Message>, m2: seq<Message>)
    ensures Extend(cfg, Extend(cfg, h, m1), m2) == Extend(cfg, h, m1 + m2)
    ensures Extends(h, Extend(cfg, h, m1))
  {
    assert Extend(cfg, Extend(cfg, h, m1), m2).heard == Extend(cfg, h, m1 + m2).heard;
  }
}
