/** Binary Agreement as functions from the old state of an instance to the new one.

    The handlers call each other recursively: finishing an epoch starts the next
    one, which handles the messages queued for it, which may finish that epoch too.
    The `decreases` clauses prove that this always ends. */
module BinaryAgreementSpec {
  import opened Options
  import opened Quorums
  import opened BoolMultimaps
  import Sbv = SbvSpec
  import Ts = ThresholdSignSpec

  const MAX_FUTURE_EPOCHS: nat := 1000

  datatype Content =
    | SbvBroadcast(msg: Sbv.Message)
    | Conf(vals: set<bool>)
    | Term(b: bool)
    | Coin(share: Ts.Share)
  {
    predicate CanExpire() {
      !Term?
    }
  }

  datatype Message = Message(epoch: nat, content: Content)

  datatype FaultKind =
    | SbvFault(kind: Sbv.FaultKind)
    | DuplicateBVal | DuplicateAux | MultipleConf | MultipleTerm
    | AgreementEpoch | CoinFault

  datatype Fault = Fault(id: nat, kind: FaultKind)

  datatype Step = Step(messages: seq<Message>, output: seq<bool>, faults: seq<Fault>) {
    function Join(other: Step): Step {
      Step(messages + other.messages, output + other.output, faults + other.faults)
    }
  }

  const NO_STEP := Step([], [], [])

  /** The network as one node sees it, and the common coin: the parity of the
      unique signature of each epoch's document. */
  datatype Config = Config(net: NetworkInfo, coin: nat -> bool)

  /** The coin schedule: `true`, `false`, flip, `true`, `false`, flip, and so on. */
  function CoinValue(cfg: Config, epoch: nat): bool {
    if epoch % 3 == 0 then true
    else if epoch % 3 == 1 then false
    else cfg.coin(epoch)
  }

  datatype CoinState = Decided(value: bool) | InProgress(ts: Ts.State)

  // ----- Messages for future epochs -----

  datatype ReceivedMessages = ReceivedMessages(
    bval: set<bool>,
    aux: set<bool>,
    conf: Option<set<bool>>,
    term: Option<bool>,
    coin: Option<Ts.Share>)
  {
    /** Records `content`, or says why it is not accepted. */
    function Insert(content: Content): (ReceivedMessages, Option<FaultKind>) {
      match content
      case SbvBroadcast(BVal(b)) =>
        if b in bval then (this, Some(DuplicateBVal)) else (this.(bval := bval + {b}), None)
      case SbvBroadcast(Aux(b)) =>
        if b in aux then (this, Some(DuplicateAux)) else (this.(aux := aux + {b}), None)
      case Conf(vals) =>
        if conf.Some? then (this, Some(MultipleConf)) else (this.(conf := Some(vals)), None)
      case Term(b) =>
        if term.Some? then (this, Some(MultipleTerm)) else (this.(term := Some(b)), None)
      case Coin(share) =>
        if coin.Some? then (this, Some(AgreementEpoch)) else (this.(coin := Some(share)), None)
    }

    /** The recorded contents, in the order in which they are handled. */
    function Contents(): seq<Content> {
      SbvContents() + OtherContents()
    }

    function SbvContents(): seq<Content> {
      (if true in bval then [SbvBroadcast(Sbv.BVal(true))] else [])
      + (if false in bval then [SbvBroadcast(Sbv.BVal(false))] else [])
      + (if true in aux then [SbvBroadcast(Sbv.Aux(true))] else [])
      + (if false in aux then [SbvBroadcast(Sbv.Aux(false))] else [])
    }

    function OtherContents(): seq<Content> {
      (if conf.Some? then [Conf(conf.value)] else [])
      + (if term.Some? then [Term(term.value)] else [])
      + (if coin.Some? then [Coin(coin.value)] else [])
    }

    /** Whether `content` is recorded. */
    predicate Has(content: Content) {
      match content
      case SbvBroadcast(BVal(b)) => b in bval
      case SbvBroadcast(Aux(b)) => b in aux
      case Conf(vals) => conf == Some(vals)
      case Term(b) => term == Some(b)
      case Coin(share) => coin == Some(share)
    }

    /** Exactly the recorded contents are handled. */
    lemma ContentsAreRecorded(content: Content)
      ensures content in Contents() <==> Has(content)
    {
      if content.SbvBroadcast? {
        assert content !in OtherContents();
        assert content in SbvContents() <==> Has(content);
      } else {
        assert content !in SbvContents();
        assert content in OtherContents() <==> Has(content);
      }
    }
  }

  const NOTHING_RECEIVED := ReceivedMessages({}, {}, None, None, None)

  type Received = map<nat, ReceivedMessages>

  /** All messages in `received` from senders below `n`, by ascending sender. */
  function Flatten(received: Received, n: nat): seq<(nat, Content)> {
    if n == 0 then []
    else Flatten(received, n - 1) + From(received, n - 1)
  }

  function From(received: Received, sender: nat): seq<(nat, Content)> {
    if sender !in received then []
    else
      var contents := received[sender].Contents();
      seq(|contents|, i requires 0 <= i < |contents| => (sender, contents[i]))
  }

  // ----- The state of an instance -----

  datatype State = State(
    epoch: nat,
    sbv: Sbv.State,
    receivedConf: map<nat, set<bool>>,
    receivedTerm: BoolMultimap,
    estimated: Option<bool>,
    decision: Option<bool>,
    incomingQueue: map<nat, Received>,
    confValues: Option<set<bool>>,
    coinState: CoinState)

  datatype Outcome = Outcome(state: State, step: Step)

  const INITIAL :=
    State(0, Sbv.INITIAL, map[], EMPTY, None, None, map[], None, Decided(true))

  /** The only element of a singleton. */
  function Definite(vals: set<bool>): (r: Option<bool>)
    ensures forall b :: r == Some(b) <==> vals == {b}
  {
    if vals == {true} then Some(true)
    else if vals == {false} then Some(false)
    else None
  }

  /** What every call keeps: while undecided, at most `f` nodes have terminated with
      either value, and the coin follows the schedule. */
  ghost predicate Valid(cfg: Config, s: State) {
    && (s.decision.None? ==> forall b :: |s.receivedTerm.Get(b)| <= cfg.net.NumFaulty())
    && (match s.coinState
        case Decided(v) => v == CoinValue(cfg, s.epoch)
        case InProgress(ts) => s.epoch % 3 == 2 && ts.doc == s.epoch)
    && (forall e, id :: e in s.incomingQueue && id in s.incomingQueue[e] ==> id < cfg.net.n)
  }

  /** Whether the current epoch can be finished. */
  predicate CanFinish(s: State) {
    s.decision.None? && s.coinState.Decided? && s.confValues.Some?
  }

  /** What is true between calls: nothing more can be done without new input. */
  ghost predicate Settled(cfg: Config, s: State) {
    Valid(cfg, s) && !CanFinish(s)
  }

  /** What every handler promises about the new state. */
  ghost predicate Advances(cfg: Config, s: State, r: State) {
    && Settled(cfg, r)
    && s.epoch <= r.epoch
    && |r.incomingQueue| <= |s.incomingQueue|
  }

  /** There is an output exactly when there is a new decision, which is never changed. */
  ghost predicate OutputIsDecision(s: State, r: Outcome) {
    if s.decision.Some? || r.state.decision.None? then r.state.decision == s.decision && r.step.output == []
    else r.step.output == [r.state.decision.value]
  }

  // ----- Termination -----

  /** The number of epochs until the coin schedule yields `b` for certain. */
  function Distance(epoch: nat, b: bool): nat {
    match epoch % 3
    case 0 => if b then 0 else 1
    case 1 => if b then 2 else 0
    case _ => if b then 1 else 2
  }

  function Weight(epoch: nat, vals: set<bool>): (w: nat)
    ensures 1 <= w <= 4
  {
    match Definite(vals)
    case Some(b) => Distance(epoch, b) + 1
    case None => 4
  }

  function StateWeight(s: State): (w: nat)
    ensures w <= 4
  {
    if s.confValues.None? then 0 else Weight(s.epoch, s.confValues.value)
  }

  function FinishWeight(s: State): (w: nat)
    ensures w <= 4
  {
    if CanFinish(s) then StateWeight(s) else 0
  }

  function StepWeight(s: State, st: Sbv.Step): (w: nat)
    ensures w <= 4
  {
    if st.output == [] || s.confValues.Some? then 0 else Weight(s.epoch, st.output[0])
  }

  function ContentWeight(s: State, content: Content): nat {
    if content.Conf? then StateWeight(s) else 6
  }

  // ----- Steps that are not recursive -----

  function SbvMessage(epoch: nat, msg: Sbv.Message): Message {
    Message(epoch, SbvBroadcast(msg))
  }

  function FromSbvStep(epoch: nat, st: Sbv.Step): Step {
    Step(
      seq(|st.messages|, i requires 0 <= i < |st.messages| => SbvMessage(epoch, st.messages[i])),
      [],
      seq(|st.faults|, i requires 0 <= i < |st.faults| => Fault(st.faults[i].id, SbvFault(st.faults[i].kind))))
  }

  function FromCoinStep(epoch: nat, st: Ts.Step): Step {
    Step(
      seq(|st.messages|, i requires 0 <= i < |st.messages| => Message(epoch, Coin(st.messages[i]))),
      [],
      seq(|st.faults|, i requires 0 <= i < |st.faults| => Fault(st.faults[i], CoinFault)))
  }

  /** Decides on `b` and tells everyone, unless already decided. */
  function Decide(cfg: Config, s: State, b: bool): (r: Outcome)
    requires Valid(cfg, if s.decision.None? then s.(decision := Some(b)) else s)
    ensures Advances(cfg, s, r.state) && OutputIsDecision(s, r)
  {
    if s.decision.Some? then
      Outcome(s, NO_STEP)
    else
      var messages := if cfg.net.IsValidator() then [Message(s.epoch + 1, Term(b))] else [];
      Outcome(s.(decision := Some(b)), Step(messages, [b], []))
  }

  /** The coin at the start of the current epoch. */
  function InitialCoin(epoch: nat): CoinState {
    if epoch % 3 == 0 then Decided(true)
    else if epoch % 3 == 1 then Decided(false)
    else InProgress(Ts.Initial(epoch))
  }

  /** The `Conf` messages that the received `Term`s stand for. A node that sent both
      is listed with `true`, which is inserted last. */
  function TermsAsConf(terms: BoolMultimap): map<nat, set<bool>> {
    map id | id in terms.no + terms.yes :: if id in terms.yes then {true} else {false}
  }

  /** Resets everything that belongs to one epoch and moves on to the next. */
  function NextEpoch(s: State, b: bool): State {
    s.(
      epoch := s.epoch + 1,
      sbv := Sbv.Clear(s.receivedTerm),
      receivedConf := TermsAsConf(s.receivedTerm),
      estimated := Some(b),
      confValues := None,
      coinState := InitialCoin(s.epoch + 1))
  }

  /** Enters the next epoch and sends our estimate. */
  function EnterEpoch(cfg: Config, s: State, b: bool): (r: (State, Sbv.Step))
    requires Valid(cfg, s) && s.decision.None?
    ensures Settled(cfg, r.0) && r.0.epoch == s.epoch + 1 && r.0.incomingQueue == s.incomingQueue
    ensures r.0.confValues.None? && (r.1.output == [] || r.1.output == [{b}])
    ensures StepWeight(r.0, r.1) <= Distance(s.epoch + 1, b) + 1
  {
    var s1 := NextEpoch(s, b);
    var r := Sbv.SendBval(cfg.net, s1.sbv, b);
    FreshEpoch(cfg, s, b);
    (s1.(sbv := r.state), r.step)
  }

  /** A new epoch is settled, and needs no more than the schedule of the coin to finish. */
  lemma FreshEpoch(cfg: Config, s: State, b: bool)
    requires Valid(cfg, s) && s.decision.None?
    ensures var s1 := NextEpoch(s, b);
            var r := Sbv.SendBval(cfg.net, s1.sbv, b);
            && Settled(cfg, s1.(sbv := r.state))
            && (r.step.output == [] || r.step.output == [{b}])
            && StepWeight(s1.(sbv := r.state), r.step) <= Distance(s.epoch + 1, b) + 1
  {
    hide Sbv.SendBval, Distance;
    FreshSendBval(cfg.net, s.receivedTerm, b);
  }

  /** Removes the messages for the current epoch from the queue. */
  function Dequeue(s: State): State {
    s.(incomingQueue := s.incomingQueue - {s.epoch})
  }

  /** Who has confirmed nothing but values that we believe in. */
  function CountedConfs(s: State): set<nat> {
    set id | id in s.receivedConf && s.receivedConf[id] <= s.sbv.binValues
  }

  function CountConf(s: State): nat {
    |CountedConfs(s)|
  }

  // ----- The handlers -----

  function TryUpdateEpoch(cfg: Config, s: State): (r: Outcome)
    requires Valid(cfg, s)
    ensures Advances(cfg, s, r.state) && OutputIsDecision(s, r)
    ensures !CanFinish(s) ==> r == Outcome(s, NO_STEP)
    decreases |s.incomingQueue|, FinishWeight(s), 1
  {
    if !CanFinish(s) then
      Outcome(s, NO_STEP)
    else
      var coin := s.coinState.value;
      var definite := Definite(s.confValues.value);
      if definite == Some(coin) then
        Decide(cfg, s, coin)
      else
        UpdateEpoch(cfg, s, if definite.Some? then definite.value else coin)
  }

  /** Enters the next epoch with the estimate `b` and handles the queued messages. */
  function UpdateEpoch(cfg: Config, s: State, b: bool): (r: Outcome)
    requires Valid(cfg, s) && s.decision.None?
    ensures Advances(cfg, s, r.state) && OutputIsDecision(s, r)
    decreases |s.incomingQueue|, Distance(s.epoch + 1, b) + 1, 10
  {
    var r1 := StartEpoch(cfg, s, b);
    var r2 := DrainQueue(cfg, r1.state);
    Outcome(r2.state, r1.step.Join(r2.step))
  }

  function StartEpoch(cfg: Config, s: State, b: bool): (r: Outcome)
    requires Valid(cfg, s) && s.decision.None?
    ensures Advances(cfg, s, r.state) && OutputIsDecision(s, r)
    decreases |s.incomingQueue|, Distance(s.epoch + 1, b) + 1, 9
  {
    var (s1, st) := EnterEpoch(cfg, s, b);
    HandleSbvbStep(cfg, s1, st)
  }

  /** Handles the messages that were queued for the current epoch. */
  function DrainQueue(cfg: Config, s: State): (r: Outcome)
    requires Settled(cfg, s)
    ensures Advances(cfg, s, r.state) && OutputIsDecision(s, r)
    decreases |s.incomingQueue|, 0, 9
  {
    if s.epoch !in s.incomingQueue then
      Outcome(s, NO_STEP)
    else
      var queued := Flatten(s.incomingQueue[s.epoch], cfg.net.n);
      RemoveKey(s.incomingQueue, s.epoch);
      FlattenSenders(s.incomingQueue[s.epoch], cfg.net.n);
      HandleQueued(cfg, Dequeue(s), s.epoch, queued)
  }

  /** Handles queued messages until the epoch is over. */
  function HandleQueued(cfg: Config, s: State, epoch: nat, queued: seq<(nat, Content)>): (r: Outcome)
    requires Settled(cfg, s)
    requires forall i :: 0 <= i < |queued| ==> queued[i].0 < cfg.net.n
    ensures Advances(cfg, s, r.state) && OutputIsDecision(s, r)
    decreases |s.incomingQueue|, 7, |queued|
  {
    if queued == [] then
      Outcome(s, NO_STEP)
    else
      var r := HandleContent(cfg, s, queued[0].0, queued[0].1);
      if r.state.decision.Some? || r.state.epoch > epoch then
        r
      else
        var rest := HandleQueued(cfg, r.state, epoch, queued[1..]);
        Outcome(rest.state, r.step.Join(rest.step))
  }

  function HandleContent(cfg: Config, s: State, sender: nat, content: Content): (r: Outcome)
    requires Settled(cfg, s) && sender < cfg.net.n
    ensures Advances(cfg, s, r.state) && OutputIsDecision(s, r)
    decreases |s.incomingQueue|, ContentWeight(s, content), 5
  {
    match content
    case SbvBroadcast(msg) => HandleSbvBroadcast(cfg, s, sender, msg)
    case Conf(vals) => HandleConf(cfg, s, sender, vals)
    case Term(b) => HandleTerm(cfg, s, sender, b)
    case Coin(share) => HandleCoin(cfg, s, sender, share)
  }

  function HandleSbvBroadcast(cfg: Config, s: State, sender: nat, msg: Sbv.Message): (r: Outcome)
    requires Settled(cfg, s) && sender < cfg.net.n
    ensures Advances(cfg, s, r.state) && OutputIsDecision(s, r)
    decreases |s.incomingQueue|, 6, 4
  {
    var r := Sbv.HandleMessage(cfg.net, s.sbv, sender, msg);
    HandleSbvbStep(cfg, s.(sbv := r.state), r.step)
  }

  /** The first output becomes the candidates: they are confirmed in a coin epoch, and decide
      or become the estimate at once in the others. */
  function HandleSbvbStep(cfg: Config, s: State, st: Sbv.Step): (r: Outcome)
    requires Settled(cfg, s)
    ensures Advances(cfg, s, r.state) && OutputIsDecision(s, r)
    decreases |s.incomingQueue|, StepWeight(s, st), 8
  {
    var step := FromSbvStep(s.epoch, st);
    if s.confValues.Some? || st.output == [] then
      Outcome(s, step)
    else
      var auxVals := st.output[0];
      var r := if s.coinState.Decided?
               then TryUpdateEpoch(cfg, s.(confValues := Some(auxVals)))
               else SendConf(cfg, s, auxVals);
      Outcome(r.state, step.Join(r.step))
  }

  function SendConf(cfg: Config, s: State, vals: set<bool>): (r: Outcome)
    requires Settled(cfg, s) && s.coinState.InProgress?
    ensures Advances(cfg, s, r.state) && OutputIsDecision(s, r)
    decreases |s.incomingQueue|, Weight(s.epoch, vals), 7
  {
    if s.confValues.Some? then
      Outcome(s, NO_STEP)
    else
      var s1 := s.(confValues := Some(vals));
      if !cfg.net.IsValidator() then
        TryFinishConfRound(cfg, s1)
      else
        var r := HandleContent(cfg, s1, cfg.net.ourId, Conf(vals));
        Outcome(r.state, Step([Message(s.epoch, Conf(vals))], [], []).Join(r.step))
  }

  function HandleConf(cfg: Config, s: State, sender: nat, vals: set<bool>): (r: Outcome)
    requires Settled(cfg, s)
    ensures Advances(cfg, s, r.state) && OutputIsDecision(s, r)
    decreases |s.incomingQueue|, StateWeight(s), 4
  {
    TryFinishConfRound(cfg, s.(receivedConf := s.receivedConf[sender := vals]))
  }

  /** Counts a `Term(b)`: more than `f` of them decide, otherwise it stands for
      `BVal(b)`, `Aux(b)` and `Conf({b})`. */
  function HandleTerm(cfg: Config, s: State, sender: nat, b: bool): (r: Outcome)
    requires Settled(cfg, s) && sender < cfg.net.n
    ensures Advances(cfg, s, r.state) && OutputIsDecision(s, r)
    decreases |s.incomingQueue|, 6, 4
  {
    var s1 := s.(receivedTerm := s.receivedTerm.Add(b, sender));
    if s1.decision.Some? then
      Outcome(s1, NO_STEP)
    else if |s1.receivedTerm.Get(b)| > cfg.net.NumFaulty() then
      Decide(cfg, s1, b)
    else
      assert s1.receivedTerm.Get(!b) == s.receivedTerm.Get(!b);
      TermAsVotes(cfg, s1, sender, b)
  }

  function TermAsSbv(cfg: Config, s: State, sender: nat, b: bool): Sbv.Outcome {
    var r1 := Sbv.HandleBval(cfg.net, s.sbv, sender, b);
    var r2 := Sbv.HandleAux(cfg.net, r1.state, sender, b);
    Sbv.Outcome(r2.state, r1.step.Join(r2.step))
  }

  function TermAsVotes(cfg: Config, s: State, sender: nat, b: bool): (r: Outcome)
    requires Settled(cfg, s) && sender < cfg.net.n
    ensures Advances(cfg, s, r.state) && OutputIsDecision(s, r)
    decreases |s.incomingQueue|, 6, 3
  {
    var sbv := TermAsSbv(cfg, s, sender, b);
    var r1 := HandleSbvbStep(cfg, s.(sbv := sbv.state), sbv.step);
    var r2 := HandleConf(cfg, r1.state, sender, {b});
    Outcome(r2.state, r1.step.Join(r2.step))
  }

  function HandleCoin(cfg: Config, s: State, sender: nat, share: Ts.Share): (r: Outcome)
    requires Settled(cfg, s) && sender < cfg.net.n
    ensures Advances(cfg, s, r.state) && OutputIsDecision(s, r)
    decreases |s.incomingQueue|, 6, 4
  {
    if s.coinState.Decided? then
      Outcome(s, NO_STEP)
    else
      OnCoinStep(cfg, s, Ts.HandleShare(cfg.net, s.coinState.ts, sender, share))
  }

  /** Applies the outcome of a call to the coin of a coin epoch. */
  function OnCoinStep(cfg: Config, s: State, ts: Ts.Outcome): (r: Outcome)
    requires Settled(cfg, s) && s.coinState.InProgress? && ts.state.doc == s.epoch
    ensures Advances(cfg, s, r.state) && OutputIsDecision(s, r)
    decreases |s.incomingQueue|, StateWeight(s), 2
  {
    var step := FromCoinStep(s.epoch, ts.step);
    if !ts.step.hasOutput then
      Outcome(s.(coinState := InProgress(ts.state)), step)
    else
      var r := TryUpdateEpoch(cfg, s.(coinState := Decided(CoinValue(cfg, s.epoch))));
      Outcome(r.state, step.Join(r.step))
  }

  /** Signs the coin once `N - f` nodes confirmed values that we believe in. */
  function TryFinishConfRound(cfg: Config, s: State): (r: Outcome)
    requires Settled(cfg, s)
    ensures Advances(cfg, s, r.state) && OutputIsDecision(s, r)
    decreases |s.incomingQueue|, StateWeight(s), 3
  {
    if s.confValues.None? || CountConf(s) < cfg.net.NumCorrect() || s.coinState.Decided? then
      Outcome(s, NO_STEP)
    else
      var r1 := OnCoinStep(cfg, s, Ts.Sign(cfg.net, s.coinState.ts));
      var r2 := TryUpdateEpoch(cfg, r1.state);
      Outcome(r2.state, r1.step.Join(r2.step))
  }

  // ----- Entry points -----

  predicate CanPropose(s: State) {
    s.epoch == 0 && s.estimated.None?
  }

  function Propose(cfg: Config, s: State, input: bool): (r: Outcome)
    requires Settled(cfg, s)
    ensures Advances(cfg, s, r.state) && OutputIsDecision(s, r)
  {
    if !CanPropose(s) then
      Outcome(s, NO_STEP)
    else
      var r := Sbv.SendBval(cfg.net, s.sbv, input);
      HandleSbvbStep(cfg, s.(estimated := Some(input), sbv := r.state), r.step)
  }

  function Enqueue(s: State, sender: nat, msg: Message): Outcome {
    var atEpoch: Received := if msg.epoch in s.incomingQueue then s.incomingQueue[msg.epoch] else map[];
    var before := if sender in atEpoch then atEpoch[sender] else NOTHING_RECEIVED;
    var (after, fault) := before.Insert(msg.content);
    Outcome(
      s.(incomingQueue := s.incomingQueue[msg.epoch := atEpoch[sender := after]]),
      if fault.Some? then Step([], [], [Fault(sender, fault.value)]) else NO_STEP)
  }

  function HandleMessage(cfg: Config, s: State, sender: nat, msg: Message): (r: Outcome)
    requires Settled(cfg, s) && sender < cfg.net.n
    ensures Settled(cfg, r.state) && s.epoch <= r.state.epoch
  {
    if s.decision.Some? || (msg.epoch < s.epoch && msg.content.CanExpire()) then
      Outcome(s, NO_STEP)
    else if msg.epoch > s.epoch + MAX_FUTURE_EPOCHS then
      Outcome(s, Step([], [], [Fault(sender, AgreementEpoch)]))
    else if msg.epoch > s.epoch then
      Enqueue(s, sender, msg)
    else
      HandleContent(cfg, s, sender, msg.content)
  }

  // ----- Why it ends -----

  lemma RemoveKey<K, V>(m: map<K, V>, k: K)
    requires k in m
    ensures |m - {k}| < |m|
  {
    assert (m - {k}).Keys == m.Keys - {k};
  }

  lemma {:induction false} FlattenSenders(received: Received, n: nat)
    ensures forall i :: 0 <= i < |Flatten(received, n)| ==> Flatten(received, n)[i].0 < n
  {
    if n > 0 {
      FlattenSenders(received, n - 1);
    }
  }

  /** In a fresh epoch, our own `BVal(b)` cannot complete the broadcast, except in a
      network of one, where it can only output `{b}`. */
  lemma FreshSendBval(net: NetworkInfo, terms: BoolMultimap, b: bool)
    requires forall v :: |terms.Get(v)| <= net.NumFaulty()
    ensures var st := Sbv.SendBval(net, Sbv.Clear(terms), b).step;
            st.output == [] || st.output == [{b}]
  {
    var s1 := Sbv.Clear(terms).(sentBval := {b});
    if net.IsValidator() {
      FreshHandleBval(net, terms, s1, b);
    }
  }

  lemma FreshHandleBval(net: NetworkInfo, terms: BoolMultimap, s: Sbv.State, b: bool)
    requires forall v :: |terms.Get(v)| <= net.NumFaulty()
    requires s == Sbv.Clear(terms).(sentBval := {b})
    ensures var st := Sbv.HandleBval(net, s, net.ourId, b).step;
            st.output == [] || st.output == [{b}]
  {
    var id := net.ourId;
    if id !in terms.Get(b) {
      var s1 := s.(receivedBval := s.receivedBval.Add(b, id));
      assert |s1.receivedBval.Get(b)| == |terms.Get(b)| + 1 <= net.NumFaulty() + 1;
      if net.NumFaulty() == 0 {
        assert terms.Get(b) == {} && terms.Get(!b) == {};
        FreshBelief(net, s1, b);
        assert Sbv.SendBval(net, Sbv.BelieveIn(net, s1, b).state, b).step == Sbv.NO_STEP;
      } else {
        assert Sbv.SendBval(net, s1, b).step == Sbv.NO_STEP;
      }
    }
  }

  lemma FreshBelief(net: NetworkInfo, s: Sbv.State, b: bool)
    requires s.binValues == {} && s.receivedAux == EMPTY
    ensures var r := Sbv.BelieveIn(net, s, b);
            (r.step.output == [] || r.step.output == [{b}]) && r.state.sentBval == s.sentBval
  {
    var s1 := s.(binValues := s.binValues + {b});
    assert s1.binValues == {b};
    var s2 := s1.(receivedAux := s1.receivedAux.Add(b, net.ourId));
    assert Sbv.AuxValues(s1) == {};
    assert Sbv.AuxValues(s2) == {b};
  }
}
