/** A run of Binary Agreement with four nodes, one of them faulty, after which all messages of
    correct nodes have been handled, and no correct node has decided: two nodes have gone on to the
    next epoch, and what they have said before is not enough for the third. */
module BinaryAgreementStallRun {
  import opened Options
  import opened Quorums
  import opened BoolMultimaps
  import opened BinaryAgreementSpec
  import opened BinaryAgreementHistory
  import opened BinaryAgreementNetwork
  import opened BinaryAgreementProgress
  import Sbv = SbvSpec

  // ----- Playing a run -----

  function FourNodes(coin: nat -> bool): System {
    System(4, {3}, {0, 1, 2}, coin)
  }

  lemma FourNodesAreValid(coin: nat -> bool)
    ensures FourNodes(coin).Valid()
  {
  }

  /** What the node itself has said. */
  function Own(h: History, i: nat): set<Message> {
    set x | x in h.heard && x.0 == i :: x.1
  }

  /** A node with this state, which has said this. */
  ghost predicate IsNode(net: Network, i: nat, s: State, own: set<Message>) {
    i in net && net[i].state == s && Own(net[i].history, i) == own
  }

  lemma Play(sys: System, actions: seq<Action>, net: Network, a: Action, r: Outcome) returns (next: Network)
    requires sys.Valid() && Reaches(sys, actions, net) && WellFormed(sys, net) && Enabled(sys, net, a)
    requires r == Act(sys, net, a)
    ensures Reaches(sys, actions + [a], next) && next.Keys == net.Keys && WellFormed(sys, next)
    ensures IsNode(next, a.to, r.state, Own(net[a.to].history, a.to) + set m | m in r.step.messages)
    ensures forall i :: i in net && i != a.to ==> next[i] == net[i]
  {
    next := Apply(sys, net, a);
    RunExtends(sys, actions, net, a);
    OwnGrows(sys.Config(a.to), net[a.to].history, a, r.step.messages);
  }

  lemma OwnGrows(cfg: Config, h: History, a: Action, messages: seq<Message>)
    requires a.Deliver? ==> a.from != cfg.net.ourId
    ensures Own(Extend(cfg, BinaryAgreementNetwork.Received(h, a), messages), cfg.net.ourId)
            == Own(h, cfg.net.ourId) + set m | m in messages
  {
    var id := cfg.net.ourId;
    var all := Extend(cfg, BinaryAgreementNetwork.Received(h, a), messages);
    forall m ensures m in Own(all, id) <==> m in Own(h, id) || m in messages {
      assert m in Own(all, id) <==> (id, m) in all.heard;
      assert m in Own(h, id) <==> (id, m) in h.heard;
    }
  }

  // ----- Calls -----

  function Bval(epoch: nat, b: bool): Message {
    Message(epoch, SbvBroadcast(Sbv.BVal(b)))
  }

  function AuxMsg(epoch: nat, b: bool): Message {
    Message(epoch, SbvBroadcast(Sbv.Aux(b)))
  }

  /** Messages that leave the broadcast without output. */
  lemma QuietCall(cfg: Config, s: State, from: nat, msg: Sbv.Message)
    requires Settled(cfg, s) && from < cfg.net.n && s.decision.None?
    requires Sbv.HandleMessage(cfg.net, s.sbv, from, msg).step.output == []
    ensures var r := Sbv.HandleMessage(cfg.net, s.sbv, from, msg);
            HandleMessage(cfg, s, from, Message(s.epoch, SbvBroadcast(msg)))
            == Outcome(s.(sbv := r.state), FromSbvStep(s.epoch, r.step))
  {
    hide Sbv.HandleMessage, FromSbvStep;
    var r := Sbv.HandleMessage(cfg.net, s.sbv, from, msg);
    assert HandleSbvbStep(cfg, s.(sbv := r.state), r.step) == Outcome(s.(sbv := r.state), FromSbvStep(s.epoch, r.step));
    IsBroadcastCall(cfg, s, from, msg);
  }

  lemma IsBroadcastCall(cfg: Config, s: State, from: nat, msg: Sbv.Message)
    requires Settled(cfg, s) && from < cfg.net.n && s.decision.None?
    ensures var r := Sbv.HandleMessage(cfg.net, s.sbv, from, msg);
            HandleMessage(cfg, s, from, Message(s.epoch, SbvBroadcast(msg)))
            == HandleSbvbStep(cfg, s.(sbv := r.state), r.step)
  {
    hide Sbv.HandleMessage, HandleSbvbStep;
    assert HandleContent(cfg, s, from, SbvBroadcast(msg)) == HandleSbvBroadcast(cfg, s, from, msg);
  }

  lemma LateCall(cfg: Config, s: State, from: nat, msg: Message)
    requires Settled(cfg, s) && from < cfg.net.n && msg.epoch < s.epoch && msg.content.SbvBroadcast?
    ensures HandleMessage(cfg, s, from, msg) == Outcome(s, NO_STEP)
  {
  }

  /** A state in epoch 0 or 1, in which nobody has terminated. */
  function Plain(epoch: nat, sbv: Sbv.State, estimate: bool, queue: map<nat, BinaryAgreementSpec.Received>): State {
    State(epoch, sbv, map[], EMPTY, Some(estimate), None, queue, None, Decided(epoch == 0))
  }

  /** The first epoch ends without a decision. */
  lemma EndsFirst(cfg: Config, s: State, from: nat, msg: Sbv.Message, vals: set<bool>, b: bool)
    requires cfg.net.n == 4 && cfg.net.ourId < 4 && from < 4
    requires s.estimated.Some? && s == Plain(0, s.sbv, s.estimated.value, map[])
    requires Sbv.HandleMessage(cfg.net, s.sbv, from, msg).step == Sbv.Step([], [vals], [])
    requires (vals == {false} && !b) || (vals == {false, true} && b)
    ensures Settled(cfg, s)
    ensures HandleMessage(cfg, s, from, Message(0, SbvBroadcast(msg)))
            == Outcome(Plain(1, Sbv.State({}, EMPTY.Add(b, cfg.net.ourId), {b}, EMPTY, false), b, map[]),
                       Step([Bval(1, b)], [], []))
  {
    hide Sbv.HandleMessage;
    var r := Sbv.HandleMessage(cfg.net, s.sbv, from, msg);
    var s1 := s.(sbv := r.state, confValues := Some(vals));
    Begins(cfg, s1, b);
    hide UpdateEpoch;
    TriesUpdate(cfg, s1, vals, b);
    hide TryUpdateEpoch;
    TakesUpFirst(cfg, s, from, msg, vals);
  }

  lemma TakesUpFirst(cfg: Config, s: State, from: nat, msg: Sbv.Message, vals: set<bool>)
    requires cfg.net.n == 4 && from < 4 && s.estimated.Some? && s == Plain(0, s.sbv, s.estimated.value, map[])
    requires Sbv.HandleMessage(cfg.net, s.sbv, from, msg).step == Sbv.Step([], [vals], [])
    ensures var r := Sbv.HandleMessage(cfg.net, s.sbv, from, msg);
            var u := TryUpdateEpoch(cfg, s.(sbv := r.state, confValues := Some(vals)));
            HandleMessage(cfg, s, from, Message(0, SbvBroadcast(msg))) == Outcome(u.state, NO_STEP.Join(u.step))
  {
    hide Sbv.HandleMessage, TryUpdateEpoch;
    var r := Sbv.HandleMessage(cfg.net, s.sbv, from, msg);
    assert FromSbvStep(0, r.step) == NO_STEP;
    IsBroadcastCall(cfg, s, from, msg);
  }

  lemma TriesUpdate(cfg: Config, s: State, vals: set<bool>, b: bool)
    requires cfg.net.n == 4 && s.epoch == 0 && Valid(cfg, s) && s.decision.None?
    requires s.coinState == Decided(true) && s.confValues == Some(vals)
    requires (vals == {false} && !b) || (vals == {false, true} && b)
    ensures TryUpdateEpoch(cfg, s) == UpdateEpoch(cfg, s, b)
  {
    hide UpdateEpoch;
    assert vals == {false, true} ==> Definite(vals) == None;
  }

  /** Nothing comes out of our own message in a new epoch, and nothing is queued. */
  lemma Begins(cfg: Config, s: State, b: bool)
    requires cfg.net.n == 4 && cfg.net.ourId < 4 && s.epoch == 0 && Valid(cfg, s) && s.decision.None?
    requires s.receivedTerm == EMPTY && s.incomingQueue == map[] && s.decision.None?
    ensures UpdateEpoch(cfg, s, b)
            == Outcome(Plain(1, Sbv.State({}, EMPTY.Add(b, cfg.net.ourId), {b}, EMPTY, false), b, map[]),
                       Step([Bval(1, b)], [], []))
  {
    var e := EnterEpoch(cfg, s, b);
    Enters1(cfg, s, b);
    hide EnterEpoch;
    assert StartEpoch(cfg, s, b) == Outcome(e.0, FromSbvStep(1, e.1));
    assert FromSbvStep(1, e.1) == Step([Bval(1, b)], [], []);
    hide StartEpoch;
    assert DrainQueue(cfg, e.0) == Outcome(e.0, NO_STEP);
  }

  lemma Enters1(cfg: Config, s: State, b: bool)
    requires cfg.net.n == 4 && cfg.net.ourId < 4 && s.epoch == 0 && Valid(cfg, s) && s.decision.None?
    requires s.receivedTerm == EMPTY && s.incomingQueue == map[]
    ensures EnterEpoch(cfg, s, b)
            == (Plain(1, Sbv.State({}, EMPTY.Add(b, cfg.net.ourId), {b}, EMPTY, false), b, map[]),
                Sbv.Step([Sbv.BVal(b)], [], []))
  {
    var sbv := Sbv.State({}, EMPTY, {b}, EMPTY, false);
    assert MaxFaulty(4) == 1;
    assert |EMPTY.Add(b, cfg.net.ourId).Get(b)| == 1;
    assert Sbv.HandleBval(cfg.net, sbv, cfg.net.ourId, b)
        == Sbv.Outcome(sbv.(receivedBval := EMPTY.Add(b, cfg.net.ourId)), Sbv.NO_STEP);
    assert Sbv.Clear(EMPTY).(sentBval := {} + {b}) == sbv;
    assert Sbv.Step([Sbv.BVal(b)], [], []).Join(Sbv.NO_STEP) == Sbv.Step([Sbv.BVal(b)], [], []);
    assert Sbv.SendBval(cfg.net, Sbv.Clear(EMPTY), b)
        == Sbv.Outcome(sbv.(receivedBval := EMPTY.Add(b, cfg.net.ourId)), Sbv.Step([Sbv.BVal(b)], [], []));
    assert TermsAsConf(EMPTY) == map[];
  }

  // ----- The broadcast at each node, stage by stage -----

  function Net(id: nat): NetworkInfo {
    NetInfo(4, id)
  }

  function Sets(no: set<nat>, yes: set<nat>): BoolMultimap {
    BoolMultimap(no, yes)
  }

  /** Node 0 proposes `false`, and comes to believe in it. */
  function Sbv0(k: nat): Sbv.State {
    match k
    case 0 => Sbv.INITIAL
    case 1 => Sbv.State({}, Sets({0}, {}), {false}, EMPTY, false)
    case 2 => Sbv.State({}, Sets({0, 3}, {}), {false}, EMPTY, false)
    case 3 => Sbv.State({false}, Sets({0, 1, 3}, {}), {false}, Sets({0}, {}), false)
    case 4 => Sbv.State({false}, Sets({0, 1, 3}, {}), {false}, Sets({0, 3}, {}), false)
    case 5 => Sbv.State({}, Sets({0}, {}), {false}, EMPTY, false)
    case _ => Sbv.State({}, Sets({0}, {1}), {false}, EMPTY, false)
  }

  /** Node 1 proposes `true`, believes in it, and then in `false`, too. */
  function Sbv1(k: nat): Sbv.State {
    match k
    case 0 => Sbv.INITIAL
    case 1 => Sbv.State({}, Sets({}, {1}), {true}, EMPTY, false)
    case 2 => Sbv.State({}, Sets({}, {1, 2}), {true}, EMPTY, false)
    case 3 => Sbv.State({true}, Sets({}, {1, 2, 3}), {true}, Sets({}, {1}), false)
    case 4 => Sbv.State({true}, Sets({0}, {1, 2, 3}), {true}, Sets({}, {1}), false)
    case 5 => Sbv.State({false, true}, Sets({0, 1, 3}, {1, 2, 3}), {false, true}, Sets({}, {1}), false)
    case 6 => Sbv.State({false, true}, Sets({0, 1, 3}, {1, 2, 3}), {false, true}, Sets({}, {1, 3}), false)
    case 7 => Sbv.State({}, Sets({}, {1}), {true}, EMPTY, false)
    case _ => Sbv.State({}, Sets({0}, {1}), {true}, EMPTY, false)
  }

  /** Node 2 proposes `true`, and comes to believe in `false` only. */
  function Sbv2(k: nat): Sbv.State {
    match k
    case 0 => Sbv.INITIAL
    case 1 => Sbv.State({}, Sets({}, {2}), {true}, EMPTY, false)
    case 2 => Sbv.State({}, Sets({0}, {2}), {true}, EMPTY, false)
    case 3 => Sbv.State({false}, Sets({0, 1, 2}, {2}), {false, true}, Sets({2}, {}), false)
    case 4 => Sbv.State({false}, Sets({0, 1, 2}, {1, 2}), {false, true}, Sets({2}, {}), false)
    case 5 => Sbv.State({false}, Sets({0, 1, 2}, {1, 2}), {false, true}, Sets({0, 2}, {}), false)
    case _ => Sbv.State({false}, Sets({0, 1, 2}, {1, 2}), {false, true}, Sets({0, 2}, {1}), false)
  }

  lemma FirstBvals()
    ensures Sbv.SendBval(Net(0), Sbv0(0), false) == Sbv.Outcome(Sbv0(1), Sbv.Step([Sbv.BVal(false)], [], []))
    ensures Sbv.SendBval(Net(1), Sbv1(0), true) == Sbv.Outcome(Sbv1(1), Sbv.Step([Sbv.BVal(true)], [], []))
    ensures Sbv.SendBval(Net(2), Sbv2(0), true) == Sbv.Outcome(Sbv2(1), Sbv.Step([Sbv.BVal(true)], [], []))
  {
    FirstBval(0, false);
    FirstBval(1, true);
    FirstBval(2, true);
  }

  lemma FirstBval(id: nat, b: bool)
    requires id < 4
    ensures Sbv.SendBval(Net(id), Sbv.INITIAL, b)
            == Sbv.Outcome(Sbv.State({}, EMPTY.Add(b, id), {b}, EMPTY, false), Sbv.Step([Sbv.BVal(b)], [], []))
  {
    var sbv := Sbv.State({}, EMPTY, {b}, EMPTY, false);
    assert |EMPTY.Add(b, id).Get(b)| == 1;
    assert Sbv.INITIAL.(sentBval := {} + {b}) == sbv;
    assert Sbv.HandleBval(Net(id), sbv, id, b) == Sbv.Outcome(sbv.(receivedBval := EMPTY.Add(b, id)), Sbv.NO_STEP);
    assert Sbv.Step([Sbv.BVal(b)], [], []).Join(Sbv.NO_STEP) == Sbv.Step([Sbv.BVal(b)], [], []);
  }

  /** A `BVal` that only counts: there are fewer than three, and ours is sent at two. */
  lemma OnlyCounts(id: nat, s: Sbv.State, from: nat, b: bool)
    requires id < 4 && from !in s.receivedBval.Get(b) && |s.receivedBval.Get(b)| < 2
    requires |s.receivedBval.Get(b)| == 1 ==> b in s.sentBval
    ensures Sbv.HandleBval(Net(id), s, from, b)
            == Sbv.Outcome(s.(receivedBval := s.receivedBval.Add(b, from)), Sbv.NO_STEP)
  {
    var s1 := s.(receivedBval := s.receivedBval.Add(b, from));
    assert |s1.receivedBval.Get(b)| == |s.receivedBval.Get(b)| + 1;
    if b in s.sentBval {
      assert Sbv.SendBval(Net(id), s1, b) == Sbv.Outcome(s1, Sbv.NO_STEP);
      assert Sbv.NO_STEP.Join(Sbv.NO_STEP) == Sbv.NO_STEP;
    }
  }

  /** The third `BVal` for the first value that a node believes in. */
  lemma FirstBelief(id: nat, s: Sbv.State, from: nat, b: bool)
    requires id < 4 && from !in s.receivedBval.Get(b) && |s.receivedBval.Get(b)| == 2
    requires s.binValues == {} && s.receivedAux == EMPTY && !s.terminated
    ensures Sbv.HandleBval(Net(id), s, from, b)
            == Sbv.Outcome(
                 s.(receivedBval := s.receivedBval.Add(b, from), binValues := {b}, receivedAux := EMPTY.Add(b, id)),
                 Sbv.Step([Sbv.Aux(b)], [], []))
  {
    var s1 := s.(receivedBval := s.receivedBval.Add(b, from));
    assert |s1.receivedBval.Get(b)| == 3;
    var s2 := s1.(binValues := {} + {b});
    assert s2.binValues == {b} && {b} != Sbv.BOTH;
    assert |EMPTY.Add(b, id).Get(b)| == 1 && |EMPTY.Add(b, id).Get(!b)| == 0;
    assert Sbv.HandleAux(Net(id), s2, id, b) == Sbv.Outcome(s2.(receivedAux := EMPTY.Add(b, id)), Sbv.NO_STEP);
    assert Sbv.Step([Sbv.Aux(b)], [], []).Join(Sbv.NO_STEP) == Sbv.Step([Sbv.Aux(b)], [], []);
  }

  /** An `Aux` that does not complete the broadcast. */
  lemma AuxCounts(id: nat, s: Sbv.State, from: nat, b: bool)
    requires id < 4 && from !in s.receivedAux.Get(b)
    requires Sbv.CountAux(s.(receivedAux := s.receivedAux.Add(b, from))) < 3
    ensures Sbv.HandleAux(Net(id), s, from, b)
            == Sbv.Outcome(s.(receivedAux := s.receivedAux.Add(b, from)), Sbv.NO_STEP)
  {
    hide Sbv.CountAux;
  }

  lemma Calls0()
    ensures Sbv.HandleBval(Net(0), Sbv0(1), 3, false) == Sbv.Outcome(Sbv0(2), Sbv.NO_STEP)
    ensures Sbv.HandleBval(Net(0), Sbv0(2), 1, false) == Sbv.Outcome(Sbv0(3), Sbv.Step([Sbv.Aux(false)], [], []))
    ensures Sbv.HandleAux(Net(0), Sbv0(3), 3, false) == Sbv.Outcome(Sbv0(4), Sbv.NO_STEP)
    ensures Sbv.HandleBval(Net(0), Sbv0(5), 1, true) == Sbv.Outcome(Sbv0(6), Sbv.NO_STEP)
  {
    hide Sbv.HandleBval, Sbv.HandleAux, Net;
    assert {0} + {3} == {0, 3} && {0, 3} + {1} == {0, 1, 3} && {} + {1} == {1} && {} + {0} == {0};
    OnlyCounts(0, Sbv0(1), 3, false);
    FirstBelief(0, Sbv0(2), 1, false);
    AuxCounts(0, Sbv0(3), 3, false);
    OnlyCounts(0, Sbv0(5), 1, true);
  }

  lemma Output0()
    ensures Sbv.HandleAux(Net(0), Sbv0(4), 2, false).step == Sbv.Step([], [{false}], [])
  {
    var last := Sbv0(4).(receivedAux := Sets({0, 3} + {2}, {}));
    assert |{0, 3} + {2}| == 3 && Sbv.AuxValues(last) == {false};
    assert Sbv.HandleAux(Net(0), Sbv0(4), 2, false) == Sbv.TryOutput(Net(0), last);
  }

  lemma Calls1()
    ensures Sbv.HandleBval(Net(1), Sbv1(1), 2, true) == Sbv.Outcome(Sbv1(2), Sbv.NO_STEP)
    ensures Sbv.HandleBval(Net(1), Sbv1(2), 3, true) == Sbv.Outcome(Sbv1(3), Sbv.Step([Sbv.Aux(true)], [], []))
    ensures Sbv.HandleBval(Net(1), Sbv1(3), 0, false) == Sbv.Outcome(Sbv1(4), Sbv.NO_STEP)
  {
    hide Sbv.HandleBval, Sbv.HandleAux, Net;
    assert {1} + {2} == {1, 2} && {1, 2} + {3} == {1, 2, 3} && {} + {0} == {0} && {} + {1} == {1};
    OnlyCounts(1, Sbv1(1), 2, true);
    FirstBelief(1, Sbv1(2), 3, true);
    OnlyCounts(1, Sbv1(3), 0, false);
  }

  lemma LaterCalls1()
    ensures Sbv.HandleBval(Net(1), Sbv1(4), 3, false) == Sbv.Outcome(Sbv1(5), Sbv.Step([Sbv.BVal(false)], [], []))
    ensures Sbv.HandleAux(Net(1), Sbv1(5), 3, true) == Sbv.Outcome(Sbv1(6), Sbv.NO_STEP)
    ensures Sbv.HandleBval(Net(1), Sbv1(7), 0, false) == Sbv.Outcome(Sbv1(8), Sbv.NO_STEP)
  {
    SecondBelief1();
    hide Sbv.HandleBval, Sbv.HandleAux, Net;
    assert {} + {0} == {0} && {1} + {3} == {1, 3};
    AuxCounts(1, Sbv1(5), 3, true);
    OnlyCounts(1, Sbv1(7), 0, false);
  }

  lemma Output1()
    ensures Sbv.HandleAux(Net(1), Sbv1(6), 0, false).step == Sbv.Step([], [{false, true}], [])
  {
    var last := Sbv1(6).(receivedAux := Sets({} + {0}, {1, 3}));
    assert |{} + {0}| == 1 && |{1, 3}| == 2 && Sbv.AuxValues(last) == {false, true};
    assert Sbv.HandleAux(Net(1), Sbv1(6), 0, false) == Sbv.TryOutput(Net(1), last);
  }

  /** Node 1 repeats `false`, and believes in it with its own message. */
  lemma SecondBelief1()
    ensures Sbv.HandleBval(Net(1), Sbv1(4), 3, false) == Sbv.Outcome(Sbv1(5), Sbv.Step([Sbv.BVal(false)], [], []))
  {
    var s1 := Sbv1(4).(receivedBval := Sets({0} + {3}, {1, 2, 3}));
    assert |{0} + {3}| == 2;
    var s2 := s1.(sentBval := {true} + {false});
    var s3 := s2.(receivedBval := Sets({0} + {3} + {1}, {1, 2, 3}));
    assert |{0} + {3} + {1}| == 3 && {0} + {3} + {1} == {0, 1, 3} && {true} + {false} == {false, true};
    assert Sbv.CountAux(Sbv1(5)) == 1;
    assert Sbv.BelieveIn(Net(1), s3, false) == Sbv.Outcome(Sbv1(5), Sbv.NO_STEP);
    assert Sbv.HandleBval(Net(1), s2, 1, false) == Sbv.Outcome(Sbv1(5), Sbv.NO_STEP);
    assert Sbv.Step([Sbv.BVal(false)], [], []).Join(Sbv.NO_STEP) == Sbv.Step([Sbv.BVal(false)], [], []);
    assert Sbv.SendBval(Net(1), s1, false) == Sbv.Outcome(Sbv1(5), Sbv.Step([Sbv.BVal(false)], [], []));
    assert Sbv.NO_STEP.Join(Sbv.Step([Sbv.BVal(false)], [], [])) == Sbv.Step([Sbv.BVal(false)], [], []);
  }

  lemma Calls2()
    ensures Sbv.HandleBval(Net(2), Sbv2(1), 0, false) == Sbv.Outcome(Sbv2(2), Sbv.NO_STEP)
    ensures Sbv.HandleBval(Net(2), Sbv2(2), 1, false)
            == Sbv.Outcome(Sbv2(3), Sbv.Step([Sbv.BVal(false), Sbv.Aux(false)], [], []))
    ensures Sbv.HandleBval(Net(2), Sbv2(3), 1, true) == Sbv.Outcome(Sbv2(4), Sbv.NO_STEP)
    ensures Sbv.HandleAux(Net(2), Sbv2(4), 0, false) == Sbv.Outcome(Sbv2(5), Sbv.NO_STEP)
    ensures Sbv.HandleAux(Net(2), Sbv2(5), 1, true) == Sbv.Outcome(Sbv2(6), Sbv.NO_STEP)
  {
    hide Sbv.HandleBval, Sbv.HandleAux, Net;
    assert {} + {0} == {0} && {2} + {1} == {1, 2} && {2} + {0} == {0, 2} && {} + {1} == {1};
    OnlyCounts(2, Sbv2(1), 0, false);
    FirstBelief2();
    OnlyCounts(2, Sbv2(3), 1, true);
    AuxCounts(2, Sbv2(4), 0, false);
    AuxCounts(2, Sbv2(5), 1, true);
  }

  /** Node 2 repeats `false`, and believes in it with its own message, as its first value. */
  lemma FirstBelief2()
    ensures Sbv.HandleBval(Net(2), Sbv2(2), 1, false)
            == Sbv.Outcome(Sbv2(3), Sbv.Step([Sbv.BVal(false), Sbv.Aux(false)], [], []))
  {
    var s1 := Sbv2(2).(receivedBval := Sets({0} + {1}, {2}));
    assert |{0} + {1}| == 2;
    var s2 := s1.(sentBval := {true} + {false});
    FirstBelief(2, s2, 2, false);
    assert {0} + {1} + {2} == {0, 1, 2} && {true} + {false} == {false, true} && {} + {2} == {2};
    var step := Sbv.Step([Sbv.Aux(false)], [], []);
    assert Sbv.HandleBval(Net(2), s2, 2, false) == Sbv.Outcome(Sbv2(3), step);
    var both := Sbv.Step([Sbv.BVal(false), Sbv.Aux(false)], [], []);
    assert Sbv.Step([Sbv.BVal(false)], [], []).Join(step) == both;
    assert Sbv.SendBval(Net(2), s1, false) == Sbv.Outcome(Sbv2(3), both);
    assert Sbv.NO_STEP.Join(both) == both;
  }

  // ----- The nodes, stage by stage -----

  function Waiting(b: bool): BinaryAgreementSpec.ReceivedMessages {
    NOTHING_RECEIVED.(bval := {b})
  }

  /** What node 2 keeps for the second epoch. */
  function Queue2(k: nat): map<nat, BinaryAgreementSpec.Received> {
    if k < 7 then map[] else if k == 7 then map[1 := map[0 := Waiting(false)]]
    else map[1 := map[0 := Waiting(false), 1 := Waiting(true)]]
  }

  function StateOf(id: nat, k: nat): State {
    if k == 0 then INITIAL
    else if id == 0 then Plain(if k < 5 then 0 else 1, Sbv0(k), false, map[])
    else if id == 1 then Plain(if k < 7 then 0 else 1, Sbv1(k), true, map[])
    else Plain(0, Sbv2(k), true, Queue2(k))
  }

  function OwnOf(id: nat, k: nat): set<Message> {
    if k == 0 then {}
    else if id == 0 then
      {Bval(0, false)} + (if k < 3 then {} else {AuxMsg(0, false)}) + (if k < 5 then {} else {Bval(1, false)})
    else if id == 1 then
      {Bval(0, true)} + (if k < 3 then {} else {AuxMsg(0, true)}) + (if k < 5 then {} else {Bval(0, false)})
      + (if k < 7 then {} else {Bval(1, true)})
    else {Bval(0, true)} + if k < 3 then {} else {Bval(0, false), AuxMsg(0, false)}
  }

  function Cfg(coin: nat -> bool, id: nat): Config {
    FourNodes(coin).Config(id)
  }

  /** A call takes this node from stage `k` to stage `l`. */
  ghost predicate Leads(id: nat, k: nat, r: Outcome, l: nat) {
    r.state == StateOf(id, l) && OwnOf(id, l) == OwnOf(id, k) + set m | m in r.step.messages
  }

  lemma StatesAreSettled(coin: nat -> bool, id: nat, k: nat)
    requires id < 3
    ensures Settled(Cfg(coin, id), StateOf(id, k))
  {
  }

  lemma OneSbv(epoch: nat, m: Sbv.Message)
    ensures FromSbvStep(epoch, Sbv.Step([m], [], [])) == Step([SbvMessage(epoch, m)], [], [])
    ensures FromSbvStep(epoch, Sbv.NO_STEP) == NO_STEP
  {
  }

  lemma QuietProposal(cfg: Config, b: bool)
    requires Settled(cfg, INITIAL) && Sbv.SendBval(cfg.net, Sbv.INITIAL, b).step.output == []
    ensures var r := Sbv.SendBval(cfg.net, Sbv.INITIAL, b);
            Propose(cfg, INITIAL, b) == Outcome(INITIAL.(estimated := Some(b), sbv := r.state), FromSbvStep(0, r.step))
  {
    hide Sbv.SendBval, FromSbvStep;
  }

  lemma FirstStages(id: nat)
    requires id < 3
    ensures StateOf(id, 0) == INITIAL && OwnOf(id, 0) == {} && OwnOf(id, 1) == {Bval(0, id != 0)}
    ensures var r := Sbv.SendBval(Net(id), Sbv.INITIAL, id != 0);
            && StateOf(id, 1) == INITIAL.(estimated := Some(id != 0), sbv := r.state)
            && r.step == Sbv.Step([Sbv.BVal(id != 0)], [], [])
  {
    FirstBvals();
    hide Sbv.SendBval;
  }

  lemma Proposes(coin: nat -> bool, id: nat)
    requires id < 3
    ensures Settled(Cfg(coin, id), INITIAL)
    ensures Leads(id, 0, Propose(Cfg(coin, id), INITIAL, id != 0), 1)
  {
    StatesAreSettled(coin, id, 0);
    hide Sbv.SendBval, Propose, StateOf, OwnOf, Settled;
    FirstStages(id);
    OneSbv(0, Sbv.BVal(id != 0));
    QuietProposal(Cfg(coin, id), id != 0);
    var step := Step([Bval(0, id != 0)], [], []);
    assert (set m | m in step.messages) == {Bval(0, id != 0)};
  }

  function Said(epoch: nat, messages: seq<Sbv.Message>): set<Message> {
    set m | m in messages :: SbvMessage(epoch, m)
  }

  lemma SaidAre(epoch: nat, m: Sbv.Message, m': Sbv.Message)
    ensures Said(epoch, []) == {} && Said(epoch, [m]) == {SbvMessage(epoch, m)}
    ensures Said(epoch, [m, m']) == {SbvMessage(epoch, m), SbvMessage(epoch, m')}
  {
    assert m in [m] && m in [m, m'] && m' in [m, m'];
  }

  /** A message of an epoch that is over. */
  lemma TooLate(coin: nat -> bool, id: nat, k: nat, from: nat, msg: Message)
    requires id < 3 && from < 4 && 0 < k && StateOf(id, k).epoch == 1 && msg.epoch == 0 && msg.content.SbvBroadcast?
    ensures Settled(Cfg(coin, id), StateOf(id, k))
    ensures Leads(id, k, HandleMessage(Cfg(coin, id), StateOf(id, k), from, msg), k)
  {
    StatesAreSettled(coin, id, k);
    LateCall(Cfg(coin, id), StateOf(id, k), from, msg);
    hide HandleMessage, OwnOf;
    assert (set m | m in NO_STEP.messages) == {};
  }

  /** The stages before and after the second epoch begins. */
  lemma SecondEpochs()
    ensures StateOf(0, 4) == Plain(0, Sbv0(4), false, map[])
    ensures StateOf(0, 5) == Plain(1, Sbv.State({}, EMPTY.Add(false, 0), {false}, EMPTY, false), false, map[])
    ensures StateOf(1, 6) == Plain(0, Sbv1(6), true, map[])
    ensures StateOf(1, 7) == Plain(1, Sbv.State({}, EMPTY.Add(true, 1), {true}, EMPTY, false), true, map[])
    ensures OwnOf(0, 5) == OwnOf(0, 4) + {Bval(1, false)} && OwnOf(1, 7) == OwnOf(1, 6) + {Bval(1, true)}
  {
    assert EMPTY.Add(false, 0) == Sets({} + {0}, {}) == Sets({0}, {});
    assert EMPTY.Add(true, 1) == Sets({}, {} + {1}) == Sets({}, {1});
  }

  lemma GoesOn0(coin: nat -> bool)
    ensures Settled(Cfg(coin, 0), StateOf(0, 4))
    ensures Leads(0, 4, HandleMessage(Cfg(coin, 0), StateOf(0, 4), 2, AuxMsg(0, false)), 5)
  {
    hide HandleMessage, Sbv.HandleAux, StateOf, OwnOf, Sbv0;
    SecondEpochs();
    Output0();
    EndsFirst(Cfg(coin, 0), StateOf(0, 4), 2, Sbv.Aux(false), {false}, false);
    assert (set m | m in [Bval(1, false)]) == {Bval(1, false)};
  }

  lemma GoesOn1(coin: nat -> bool)
    ensures Settled(Cfg(coin, 1), StateOf(1, 6))
    ensures Leads(1, 6, HandleMessage(Cfg(coin, 1), StateOf(1, 6), 0, AuxMsg(0, false)), 7)
  {
    hide HandleMessage, Sbv.HandleAux, StateOf, OwnOf, Sbv1;
    SecondEpochs();
    Output1();
    EndsFirst(Cfg(coin, 1), StateOf(1, 6), 0, Sbv.Aux(false), {false, true}, true);
    assert (set m | m in [Bval(1, true)]) == {Bval(1, true)};
  }

  lemma IsQueued(cfg: Config, s: State, from: nat, msg: Message)
    requires Settled(cfg, s) && from < cfg.net.n && s.epoch < msg.epoch <= s.epoch + MAX_FUTURE_EPOCHS
    requires s.decision.None?
    ensures HandleMessage(cfg, s, from, msg) == Enqueue(s, from, msg)
  {
    hide Enqueue;
  }

  lemma Queues(k: nat)
    requires k == 6 || k == 7
    ensures Enqueue(StateOf(2, k), k - 6, Bval(1, k == 7)) == Outcome(StateOf(2, k + 1), NO_STEP)
    ensures StateOf(2, k).epoch == 0 && StateOf(2, k).decision.None? && OwnOf(2, k + 1) == OwnOf(2, k)
  {
    assert Sbv2(k + 1) == Sbv2(k);
    hide Sbv2;
    assert NOTHING_RECEIVED.Insert(Bval(1, k == 7).content) == (Waiting(k == 7), None) by {
      assert {} + {k == 7} == {k == 7};
    }
    var before: BinaryAgreementSpec.Received := if k == 6 then map[] else map[0 := Waiting(false)];
    assert Queue2(k + 1) == Queue2(k)[1 := before[k - 6 := Waiting(k == 7)]];
  }

  lemma Waits2(coin: nat -> bool, k: nat)
    requires k == 6 || k == 7
    ensures Settled(Cfg(coin, 2), StateOf(2, k))
    ensures Leads(2, k, HandleMessage(Cfg(coin, 2), StateOf(2, k), k - 6, Bval(1, k == 7)), k + 1)
  {
    StatesAreSettled(coin, 2, k);
    hide HandleMessage, Enqueue, StateOf, OwnOf, Settled;
    Queues(k);
    IsQueued(Cfg(coin, 2), StateOf(2, k), k - 6, Bval(1, k == 7));
    assert (set m | m in NO_STEP.messages) == {};
  }

  // ----- The run -----

  /** The call that this action makes takes its node from stage `k` to stage `l`. */
  ghost predicate IsCall(coin: nat -> bool, a: Action, k: nat, l: nat) {
    && a.to < 3 && Settled(Cfg(coin, a.to), StateOf(a.to, k))
    && match a
       case Input(to, value) => Leads(to, k, Propose(Cfg(coin, to), StateOf(to, k), value), l)
       case Deliver(to, from, msg) =>
         from < 4 && from != to && Leads(to, k, HandleMessage(Cfg(coin, to), StateOf(to, k), from, msg), l)
  }

  /** A message of the current epoch that leaves the broadcast without output. */
  lemma Quietly(coin: nat -> bool, id: nat, k: nat, from: nat, msg: Sbv.Message, l: nat, messages: seq<Sbv.Message>)
    requires id < 3 && from < 4 && from != id && 0 < k
    requires Sbv.HandleMessage(Net(id), StateOf(id, k).sbv, from, msg)
             == Sbv.Outcome(StateOf(id, l).sbv, Sbv.Step(messages, [], []))
    requires StateOf(id, l) == StateOf(id, k).(sbv := StateOf(id, l).sbv)
    requires OwnOf(id, l) == OwnOf(id, k) + Said(StateOf(id, k).epoch, messages)
    ensures IsCall(coin, Deliver(id, from, Message(StateOf(id, k).epoch, SbvBroadcast(msg))), k, l)
  {
    hide Sbv.HandleMessage, OwnOf;
    StatesAreSettled(coin, id, k);
    var s := StateOf(id, k);
    QuietCall(Cfg(coin, id), s, from, msg);
    var step := FromSbvStep(s.epoch, Sbv.Step(messages, [], []));
    assert (set m | m in step.messages) == Said(s.epoch, messages) by {
      forall m | m in messages ensures SbvMessage(s.epoch, m) in step.messages {
        var i: nat :| i < |messages| && messages[i] == m;
        assert step.messages[i] == SbvMessage(s.epoch, m);
      }
    }
  }

  lemma InputCall(coin: nat -> bool, id: nat)
    requires id < 3
    ensures IsCall(coin, Input(id, id != 0), 0, 1)
  {
    hide Propose;
    Proposes(coin, id);
  }

  lemma GoOnCalls(coin: nat -> bool)
    ensures IsCall(coin, Deliver(0, 2, AuxMsg(0, false)), 4, 5)
    ensures IsCall(coin, Deliver(1, 0, AuxMsg(0, false)), 6, 7)
  {
    hide HandleMessage, StateOf, OwnOf, Settled;
    GoesOn0(coin);
    GoesOn1(coin);
  }

  lemma WaitCalls(coin: nat -> bool)
    ensures IsCall(coin, Deliver(2, 0, Bval(1, false)), 6, 7)
    ensures IsCall(coin, Deliver(2, 1, Bval(1, true)), 7, 8)
  {
    hide HandleMessage, StateOf, OwnOf, Settled;
    StatesAreSettled(coin, 2, 6);
    StatesAreSettled(coin, 2, 7);
    Waits2(coin, 6);
    Waits2(coin, 7);
  }

  lemma LateCalls(coin: nat -> bool, id: nat, k: nat, from: nat, b: bool)
    requires (id == 0 && 5 <= k) || (id == 1 && 7 <= k)
    requires from < 4 && from != id
    ensures IsCall(coin, Deliver(id, from, Bval(0, b)), k, k)
    ensures IsCall(coin, Deliver(id, from, AuxMsg(0, b)), k, k)
  {
    hide HandleMessage, OwnOf;
    TooLate(coin, id, k, from, Bval(0, b));
    TooLate(coin, id, k, from, AuxMsg(0, b));
  }

  lemma Node0Calls(coin: nat -> bool)
    ensures IsCall(coin, Deliver(0, 3, Bval(0, false)), 1, 2)
    ensures IsCall(coin, Deliver(0, 1, Bval(0, false)), 2, 3)
    ensures IsCall(coin, Deliver(0, 3, AuxMsg(0, false)), 3, 4)
    ensures IsCall(coin, Deliver(0, 1, Bval(1, true)), 5, 6)
  {
    hide Sbv.HandleBval, Sbv.HandleAux, HandleMessage, IsCall, Sbv0;
    Calls0();
    assert IsCall(coin, Deliver(0, 3, Bval(0, false)), 1, 2) by {
      Stage0(1);
      SaidAre(0, Sbv.BVal(true), Sbv.BVal(true));
      assert OwnOf(0, 2) == OwnOf(0, 1) + {};
      Quietly(coin, 0, 1, 3, Sbv.BVal(false), 2, []);
    }
    assert IsCall(coin, Deliver(0, 1, Bval(0, false)), 2, 3) by {
      Stage0(2);
      SaidAre(0, Sbv.Aux(false), Sbv.Aux(false));
      assert OwnOf(0, 3) == OwnOf(0, 2) + {AuxMsg(0, false)};
      Quietly(coin, 0, 2, 1, Sbv.BVal(false), 3, [Sbv.Aux(false)]);
    }
    assert IsCall(coin, Deliver(0, 3, AuxMsg(0, false)), 3, 4) by {
      Stage0(3);
      SaidAre(0, Sbv.BVal(true), Sbv.BVal(true));
      assert OwnOf(0, 4) == OwnOf(0, 3) + {};
      Quietly(coin, 0, 3, 3, Sbv.Aux(false), 4, []);
    }
    assert IsCall(coin, Deliver(0, 1, Bval(1, true)), 5, 6) by {
      Stage0(5);
      SaidAre(1, Sbv.BVal(true), Sbv.BVal(true));
      assert OwnOf(0, 6) == OwnOf(0, 5) + {};
      Quietly(coin, 0, 5, 1, Sbv.BVal(true), 6, []);
    }
  }

  lemma Node1Calls(coin: nat -> bool)
    ensures IsCall(coin, Deliver(1, 2, Bval(0, true)), 1, 2)
    ensures IsCall(coin, Deliver(1, 3, Bval(0, true)), 2, 3)
    ensures IsCall(coin, Deliver(1, 0, Bval(0, false)), 3, 4)
    ensures IsCall(coin, Deliver(1, 3, Bval(0, false)), 4, 5)
    ensures IsCall(coin, Deliver(1, 3, AuxMsg(0, true)), 5, 6)
    ensures IsCall(coin, Deliver(1, 0, Bval(1, false)), 7, 8)
  {
    hide Sbv.HandleBval, Sbv.HandleAux, HandleMessage, IsCall, Sbv1;
    Calls1();
    LaterCalls1();
    assert IsCall(coin, Deliver(1, 2, Bval(0, true)), 1, 2) by {
      Stage1(1);
      SaidAre(0, Sbv.BVal(true), Sbv.BVal(true));
      assert OwnOf(1, 2) == OwnOf(1, 1) + {};
      Quietly(coin, 1, 1, 2, Sbv.BVal(true), 2, []);
    }
    assert IsCall(coin, Deliver(1, 3, Bval(0, true)), 2, 3) by {
      Stage1(2);
      SaidAre(0, Sbv.Aux(true), Sbv.Aux(true));
      assert OwnOf(1, 3) == OwnOf(1, 2) + {AuxMsg(0, true)};
      Quietly(coin, 1, 2, 3, Sbv.BVal(true), 3, [Sbv.Aux(true)]);
    }
    assert IsCall(coin, Deliver(1, 0, Bval(0, false)), 3, 4) by {
      Stage1(3);
      SaidAre(0, Sbv.BVal(true), Sbv.BVal(true));
      assert OwnOf(1, 4) == OwnOf(1, 3) + {};
      Quietly(coin, 1, 3, 0, Sbv.BVal(false), 4, []);
    }
    assert IsCall(coin, Deliver(1, 3, Bval(0, false)), 4, 5) by {
      Stage1(4);
      SaidAre(0, Sbv.BVal(false), Sbv.BVal(false));
      assert OwnOf(1, 5) == OwnOf(1, 4) + {Bval(0, false)};
      Quietly(coin, 1, 4, 3, Sbv.BVal(false), 5, [Sbv.BVal(false)]);
    }
    assert IsCall(coin, Deliver(1, 3, AuxMsg(0, true)), 5, 6) by {
      Stage1(5);
      SaidAre(0, Sbv.BVal(true), Sbv.BVal(true));
      assert OwnOf(1, 6) == OwnOf(1, 5) + {};
      Quietly(coin, 1, 5, 3, Sbv.Aux(true), 6, []);
    }
    assert IsCall(coin, Deliver(1, 0, Bval(1, false)), 7, 8) by {
      Stage1(7);
      SaidAre(1, Sbv.BVal(true), Sbv.BVal(true));
      assert OwnOf(1, 8) == OwnOf(1, 7) + {};
      Quietly(coin, 1, 7, 0, Sbv.BVal(false), 8, []);
    }
  }

  lemma Node2Calls(coin: nat -> bool)
    ensures IsCall(coin, Deliver(2, 0, Bval(0, false)), 1, 2)
    ensures IsCall(coin, Deliver(2, 1, Bval(0, false)), 2, 3)
    ensures IsCall(coin, Deliver(2, 1, Bval(0, true)), 3, 4)
    ensures IsCall(coin, Deliver(2, 0, AuxMsg(0, false)), 4, 5)
    ensures IsCall(coin, Deliver(2, 1, AuxMsg(0, true)), 5, 6)
  {
    hide Sbv.HandleBval, Sbv.HandleAux, HandleMessage, IsCall, Sbv2;
    Calls2();
    assert IsCall(coin, Deliver(2, 0, Bval(0, false)), 1, 2) by {
      Stage2(1);
      SaidAre(0, Sbv.BVal(true), Sbv.BVal(true));
      assert OwnOf(2, 2) == OwnOf(2, 1) + {};
      Quietly(coin, 2, 1, 0, Sbv.BVal(false), 2, []);
    }
    assert IsCall(coin, Deliver(2, 1, Bval(0, false)), 2, 3) by {
      Stage2(2);
      SaidAre(0, Sbv.BVal(false), Sbv.Aux(false));
      assert OwnOf(2, 3) == OwnOf(2, 2) + {Bval(0, false), AuxMsg(0, false)};
      Quietly(coin, 2, 2, 1, Sbv.BVal(false), 3, [Sbv.BVal(false), Sbv.Aux(false)]);
    }
    assert IsCall(coin, Deliver(2, 1, Bval(0, true)), 3, 4) by {
      Stage2(3);
      SaidAre(0, Sbv.BVal(true), Sbv.BVal(true));
      assert OwnOf(2, 4) == OwnOf(2, 3) + {};
      Quietly(coin, 2, 3, 1, Sbv.BVal(true), 4, []);
    }
    assert IsCall(coin, Deliver(2, 0, AuxMsg(0, false)), 4, 5) by {
      Stage2(4);
      SaidAre(0, Sbv.BVal(true), Sbv.BVal(true));
      assert OwnOf(2, 5) == OwnOf(2, 4) + {};
      Quietly(coin, 2, 4, 0, Sbv.Aux(false), 5, []);
    }
    assert IsCall(coin, Deliver(2, 1, AuxMsg(0, true)), 5, 6) by {
      Stage2(5);
      SaidAre(0, Sbv.BVal(true), Sbv.BVal(true));
      assert OwnOf(2, 6) == OwnOf(2, 5) + {};
      Quietly(coin, 2, 5, 1, Sbv.Aux(true), 6, []);
    }
  }

  lemma Stage0(k: nat)
    requires 1 <= k <= 5 && k != 4
    ensures var s := StateOf(0, k);
            && s.sbv == Sbv0(k) && StateOf(0, k + 1) == s.(sbv := Sbv0(k + 1)) && s.epoch == if k < 5 then 0 else 1
  {
  }

  lemma Stage1(k: nat)
    requires 1 <= k <= 7 && k != 6
    ensures var s := StateOf(1, k);
            && s.sbv == Sbv1(k) && StateOf(1, k + 1) == s.(sbv := Sbv1(k + 1)) && s.epoch == if k < 7 then 0 else 1
  {
  }

  lemma Stage2(k: nat)
    requires 1 <= k <= 5
    ensures var s := StateOf(2, k);
            s.sbv == Sbv2(k) && StateOf(2, k + 1) == s.(sbv := Sbv2(k + 1)) && s.epoch == 0
  {
  }

  /** What the nodes have said from these stages on. */
  lemma HaveSaid()
    ensures forall k :: (k >= 1 ==> Bval(0, false) in OwnOf(0, k)) && (k >= 3 ==> AuxMsg(0, false) in OwnOf(0, k))
                        && (k >= 5 ==> Bval(1, false) in OwnOf(0, k))
    ensures forall k :: (k >= 1 ==> Bval(0, true) in OwnOf(1, k)) && (k >= 3 ==> AuxMsg(0, true) in OwnOf(1, k))
                        && (k >= 5 ==> Bval(0, false) in OwnOf(1, k)) && (k >= 7 ==> Bval(1, true) in OwnOf(1, k))
    ensures forall k :: (k >= 1 ==> Bval(0, true) in OwnOf(2, k))
                        && (k >= 3 ==> Bval(0, false) in OwnOf(2, k) && AuxMsg(0, false) in OwnOf(2, k))
  {
  }

  /** The stages of the three correct nodes. */
  datatype Stages = Stages(zero: nat, one: nat, two: nat) {
    function Of(id: nat): nat {
      if id == 0 then zero else if id == 1 then one else two
    }

    function With(id: nat, k: nat): Stages {
      if id == 0 then Stages(k, one, two) else if id == 1 then Stages(zero, k, two) else Stages(zero, one, k)
    }
  }

  /** The correct nodes are in these stages after these actions. */
  ghost predicate At(coin: nat -> bool, actions: seq<Action>, net: Network, ks: Stages) {
    && FourNodes(coin).Valid() && Reaches(FourNodes(coin), actions, net) && WellFormed(FourNodes(coin), net)
    && net.Keys == {0, 1, 2}
    && forall id: nat :: id < 3 ==> IsNode(net, id, StateOf(id, ks.Of(id)), OwnOf(id, ks.Of(id)))
  }

  lemma Begin(coin: nat -> bool) returns (net: Network)
    ensures At(coin, [], net, Stages(0, 0, 0))
  {
    net := Initial(FourNodes(coin));
    FourNodesAreValid(coin);
    assert IsRun(FourNodes(coin), [], [net], net);
    RunInv(FourNodes(coin), [], net);
  }

  /** One action of the run, of a correct node with what it has said, or of the faulty one. */
  lemma Then(coin: nat -> bool, actions: seq<Action>, net: Network, ks: Stages, a: Action, l: nat)
    returns (actions': seq<Action>, net': Network)
    requires At(coin, actions, net, ks) && a.to < 3 && IsCall(coin, a, ks.Of(a.to), l)
    requires a.Deliver? && a.from < 3 ==> a.msg in OwnOf(a.from, ks.Of(a.from))
    ensures At(coin, actions', net', ks.With(a.to, l)) && actions' == actions + [a]
  {
    hide StateOf, OwnOf, Propose, HandleMessage, Reaches, Settled, WellFormed;
    var sys := FourNodes(coin);
    assert IsNode(net, a.to, StateOf(a.to, ks.Of(a.to)), OwnOf(a.to, ks.Of(a.to)));
    if a.Deliver? && a.from < 3 {
      assert IsNode(net, a.from, StateOf(a.from, ks.Of(a.from)), OwnOf(a.from, ks.Of(a.from)));
    }
    assert Enabled(sys, net, a);
    var r := Act(sys, net, a);
    net' := Play(sys, actions, net, a, r);
    actions' := actions + [a];
    var ks' := ks.With(a.to, l);
    forall id: nat | id < 3 ensures IsNode(net', id, StateOf(id, ks'.Of(id)), OwnOf(id, ks'.Of(id))) {
      assert IsNode(net, id, StateOf(id, ks.Of(id)), OwnOf(id, ks.Of(id)));
    }
  }

  /** The correct nodes propose, and node 1 comes to believe in `true`, with the help of node 3, and repeats
      `false`. */
  lemma Proposals(coin: nat -> bool, actions: seq<Action>, net: Network)
    returns (actions': seq<Action>, net': Network)
    requires At(coin, actions, net, Stages(0, 0, 0))
    ensures At(coin, actions', net', Stages(1, 5, 1)) && actions' == actions + ProposalsActions()
  {
    hide At, IsCall, OwnOf;
    HaveSaid();
    InputCall(coin, 0);
    InputCall(coin, 1);
    InputCall(coin, 2);
    Node1Calls(coin);
    actions', net' := Then(coin, actions, net, Stages(0, 0, 0), Input(0, false), 1);
    actions', net' := Then(coin, actions', net', Stages(1, 0, 0), Input(1, true), 1);
    actions', net' := Then(coin, actions', net', Stages(1, 1, 0), Input(2, true), 1);
    actions', net' := Then(coin, actions', net', Stages(1, 1, 1), Deliver(1, 2, Bval(0, true)), 2);
    actions', net' := Then(coin, actions', net', Stages(1, 2, 1), Deliver(1, 3, Bval(0, true)), 3);
    actions', net' := Then(coin, actions', net', Stages(1, 3, 1), Deliver(1, 0, Bval(0, false)), 4);
    actions', net' := Then(coin, actions', net', Stages(1, 4, 1), Deliver(1, 3, Bval(0, false)), 5);
    assert actions' == actions + ProposalsActions();
  }

  function ProposalsActions(): seq<Action> {
    [Input(0, false), Input(1, true), Input(2, true), Deliver(1, 2, Bval(0, true)),
     Deliver(1, 3, Bval(0, true)), Deliver(1, 0, Bval(0, false)), Deliver(1, 3, Bval(0, false))]
  }

  /** Node 2 comes to believe in `false`. */
  lemma Node2Believes(coin: nat -> bool, actions: seq<Action>, net: Network)
    returns (actions': seq<Action>, net': Network)
    requires At(coin, actions, net, Stages(1, 5, 1))
    ensures At(coin, actions', net', Stages(1, 5, 4)) && actions' == actions + Node2BelievesActions()
  {
    hide At, IsCall, OwnOf;
    HaveSaid();
    Node2Calls(coin);
    actions', net' := Then(coin, actions, net, Stages(1, 5, 1), Deliver(2, 0, Bval(0, false)), 2);
    actions', net' := Then(coin, actions', net', Stages(1, 5, 2), Deliver(2, 1, Bval(0, false)), 3);
    actions', net' := Then(coin, actions', net', Stages(1, 5, 3), Deliver(2, 1, Bval(0, true)), 4);
    assert actions' == actions + Node2BelievesActions();
  }

  function Node2BelievesActions(): seq<Action> {
    [Deliver(2, 0, Bval(0, false)), Deliver(2, 1, Bval(0, false)), Deliver(2, 1, Bval(0, true))]
  }

  /** Node 0 goes on to the next epoch. */
  lemma Node0GoesOn(coin: nat -> bool, actions: seq<Action>, net: Network)
    returns (actions': seq<Action>, net': Network)
    requires At(coin, actions, net, Stages(1, 5, 4))
    ensures At(coin, actions', net', Stages(5, 5, 4)) && actions' == actions + Node0GoesOnActions()
  {
    hide At, IsCall, OwnOf;
    HaveSaid();
    Node0Calls(coin);
    GoOnCalls(coin);
    actions', net' := Then(coin, actions, net, Stages(1, 5, 4), Deliver(0, 3, Bval(0, false)), 2);
    actions', net' := Then(coin, actions', net', Stages(2, 5, 4), Deliver(0, 1, Bval(0, false)), 3);
    actions', net' := Then(coin, actions', net', Stages(3, 5, 4), Deliver(0, 3, AuxMsg(0, false)), 4);
    actions', net' := Then(coin, actions', net', Stages(4, 5, 4), Deliver(0, 2, AuxMsg(0, false)), 5);
    assert actions' == actions + Node0GoesOnActions();
  }

  function Node0GoesOnActions(): seq<Action> {
    [Deliver(0, 3, Bval(0, false)), Deliver(0, 1, Bval(0, false)), Deliver(0, 3, AuxMsg(0, false)),
     Deliver(0, 2, AuxMsg(0, false))]
  }

  /** Node 1 goes on to the next epoch, with another estimate. */
  lemma Node1GoesOn(coin: nat -> bool, actions: seq<Action>, net: Network)
    returns (actions': seq<Action>, net': Network)
    requires At(coin, actions, net, Stages(5, 5, 4))
    ensures At(coin, actions', net', Stages(5, 7, 4)) && actions' == actions + Node1GoesOnActions()
  {
    hide At, IsCall, OwnOf;
    HaveSaid();
    Node1Calls(coin);
    GoOnCalls(coin);
    actions', net' := Then(coin, actions, net, Stages(5, 5, 4), Deliver(1, 3, AuxMsg(0, true)), 6);
    actions', net' := Then(coin, actions', net', Stages(5, 6, 4), Deliver(1, 0, AuxMsg(0, false)), 7);
    assert actions' == actions + Node1GoesOnActions();
  }

  function Node1GoesOnActions(): seq<Action> {
    [Deliver(1, 3, AuxMsg(0, true)), Deliver(1, 0, AuxMsg(0, false))]
  }

  /** Node 2 has handled all that they have said. */
  lemma Node2Hears(coin: nat -> bool, actions: seq<Action>, net: Network)
    returns (actions': seq<Action>, net': Network)
    requires At(coin, actions, net, Stages(5, 7, 4))
    ensures At(coin, actions', net', Stages(5, 7, 8)) && actions' == actions + Node2HearsActions()
  {
    hide At, IsCall, OwnOf;
    HaveSaid();
    Node2Calls(coin);
    WaitCalls(coin);
    actions', net' := Then(coin, actions, net, Stages(5, 7, 4), Deliver(2, 0, AuxMsg(0, false)), 5);
    actions', net' := Then(coin, actions', net', Stages(5, 7, 5), Deliver(2, 1, AuxMsg(0, true)), 6);
    actions', net' := Then(coin, actions', net', Stages(5, 7, 6), Deliver(2, 0, Bval(1, false)), 7);
    actions', net' := Then(coin, actions', net', Stages(5, 7, 7), Deliver(2, 1, Bval(1, true)), 8);
    assert actions' == actions + Node2HearsActions();
  }

  function Node2HearsActions(): seq<Action> {
    [Deliver(2, 0, AuxMsg(0, false)), Deliver(2, 1, AuxMsg(0, true)), Deliver(2, 0, Bval(1, false)),
     Deliver(2, 1, Bval(1, true))]
  }

  /** What the others have still not handled is too late for them, but for the new epoch. */
  lemma TheRestIsLate(coin: nat -> bool, actions: seq<Action>, net: Network)
    returns (actions': seq<Action>, net': Network)
    requires At(coin, actions, net, Stages(5, 7, 8))
    ensures At(coin, actions', net', Stages(6, 8, 8)) && actions' == actions + TheRestIsLateActions()
  {
    hide At, IsCall, OwnOf;
    HaveSaid();
    LateCalls(coin, 0, 5, 1, true);
    LateCalls(coin, 0, 5, 2, true);
    LateCalls(coin, 0, 5, 2, false);
    Node0Calls(coin);
    LateCalls(coin, 1, 7, 2, false);
    Node1Calls(coin);
    actions', net' := Then(coin, actions, net, Stages(5, 7, 8), Deliver(0, 1, Bval(0, true)), 5);
    actions', net' := Then(coin, actions', net', Stages(5, 7, 8), Deliver(0, 2, Bval(0, true)), 5);
    actions', net' := Then(coin, actions', net', Stages(5, 7, 8), Deliver(0, 2, Bval(0, false)), 5);
    actions', net' := Then(coin, actions', net', Stages(5, 7, 8), Deliver(0, 1, AuxMsg(0, true)), 5);
    actions', net' := Then(coin, actions', net', Stages(5, 7, 8), Deliver(0, 1, Bval(1, true)), 6);
    actions', net' := Then(coin, actions', net', Stages(6, 7, 8), Deliver(1, 2, Bval(0, false)), 7);
    actions', net' := Then(coin, actions', net', Stages(6, 7, 8), Deliver(1, 2, AuxMsg(0, false)), 7);
    actions', net' := Then(coin, actions', net', Stages(6, 7, 8), Deliver(1, 0, Bval(1, false)), 8);
    assert actions' == actions + TheRestIsLateActions();
  }

  function TheRestIsLateActions(): seq<Action> {
    [Deliver(0, 1, Bval(0, true)), Deliver(0, 2, Bval(0, true)), Deliver(0, 2, Bval(0, false)),
     Deliver(0, 1, AuxMsg(0, true)), Deliver(0, 1, Bval(1, true)), Deliver(1, 2, Bval(0, false)),
     Deliver(1, 2, AuxMsg(0, false)), Deliver(1, 0, Bval(1, false))]
  }

  // ----- The result -----

  /** Whatever a correct node has said, every other one has handled. */
  ghost predicate AllDelivered(net: Network, actions: seq<Action>) {
    forall i, j, m :: i in net && j in net && i != j && (j, m) in net[j].history.heard ==> Deliver(i, j, m) in actions
  }

  /** All actions of the run. */
  function RunActions(): seq<Action> {
    ProposalsActions() + Node2BelievesActions() + Node0GoesOnActions() + Node1GoesOnActions() + Node2HearsActions()
    + TheRestIsLateActions()
  }

  /** Everybody has handled what nodes 0, 1 and 2 say up to their last stages. */
  lemma AllIsHandled(i: nat, j: nat, m: Message)
    requires i < 3 && j < 3 && i != j && m in OwnOf(j, Stages(6, 8, 8).Of(j))
    ensures Deliver(i, j, m) in RunActions()
  {
    if j == 0 {
      Handled0(i, m);
    } else if j == 1 {
      Handled1(i, m);
    } else {
      Handled2(i, m);
    }
  }

  lemma Handled0(i: nat, m: Message)
    requires (i == 1 || i == 2) && m in OwnOf(0, 6)
    ensures Deliver(i, 0, m) in RunActions()
  {
    if m == Bval(0, false) {
      assert if i == 1 then Deliver(1, 0, m) in ProposalsActions() else Deliver(2, 0, m) in Node2BelievesActions();
    } else if m == AuxMsg(0, false) {
      assert if i == 1 then Deliver(1, 0, m) in Node1GoesOnActions() else Deliver(2, 0, m) in Node2HearsActions();
    } else {
      assert m == Bval(1, false);
      assert if i == 1 then Deliver(1, 0, m) in TheRestIsLateActions() else Deliver(2, 0, m) in Node2HearsActions();
    }
  }

  lemma Handled1(i: nat, m: Message)
    requires (i == 0 || i == 2) && m in OwnOf(1, 8)
    ensures Deliver(i, 1, m) in RunActions()
  {
    if m == Bval(0, true) {
      assert if i == 0 then Deliver(0, 1, m) in TheRestIsLateActions() else Deliver(2, 1, m) in Node2BelievesActions();
    } else if m == AuxMsg(0, true) {
      assert if i == 0 then Deliver(0, 1, m) in TheRestIsLateActions() else Deliver(2, 1, m) in Node2HearsActions();
    } else if m == Bval(0, false) {
      assert if i == 0 then Deliver(0, 1, m) in Node0GoesOnActions() else Deliver(2, 1, m) in Node2BelievesActions();
    } else {
      assert m == Bval(1, true);
      assert if i == 0 then Deliver(0, 1, m) in TheRestIsLateActions() else Deliver(2, 1, m) in Node2HearsActions();
    }
  }

  lemma Handled2(i: nat, m: Message)
    requires i < 2 && m in OwnOf(2, 8)
    ensures Deliver(i, 2, m) in RunActions()
  {
    if m == Bval(0, true) {
      assert if i == 0 then Deliver(0, 2, m) in TheRestIsLateActions() else Deliver(1, 2, m) in ProposalsActions();
    } else if m == Bval(0, false) {
      assert Deliver(i, 2, m) in TheRestIsLateActions();
    } else {
      assert m == AuxMsg(0, false);
      assert if i == 0 then Deliver(0, 2, m) in Node0GoesOnActions() else Deliver(1, 2, m) in TheRestIsLateActions();
    }
  }

  lemma EndIsDelivered(coin: nat -> bool, actions: seq<Action>, net: Network)
    requires At(coin, actions, net, Stages(6, 8, 8)) && actions == RunActions()
    ensures AllDelivered(net, actions)
  {
    hide StateOf, OwnOf, RunActions, Reaches, WellFormed;
    forall i, j, m | i in net && j in net && i != j && (j, m) in net[j].history.heard
      ensures Deliver(i, j, m) in actions
    {
      assert IsNode(net, j, StateOf(j, Stages(6, 8, 8).Of(j)), OwnOf(j, Stages(6, 8, 8).Of(j)));
      assert m in Own(net[j].history, j);
      AllIsHandled(i, j, m);
    }
  }

  lemma EndIsStuck(coin: nat -> bool, actions: seq<Action>, net: Network)
    requires At(coin, actions, net, Stages(6, 8, 8))
    ensures FourNodes(coin).Valid() && Reaches(FourNodes(coin), actions, net) && net.Keys == {0, 1, 2}
    ensures forall i :: i in net ==> net[i].state.decision.None? && net[i].state.estimated.Some?
    ensures net[0].state.epoch == 1 && net[1].state.epoch == 1 && net[2].state.epoch == 0
    ensures net[2].state.sbv.binValues == {false} && Sbv.CountAux(net[2].state.sbv) == 2
  {
    hide Reaches, WellFormed, OwnOf;
    assert Stages(6, 8, 8).Of(0) == 6;
    assert IsNode(net, 0, StateOf(0, 6), OwnOf(0, 6));
    assert Stages(6, 8, 8).Of(1) == 8;
    assert IsNode(net, 1, StateOf(1, 8), OwnOf(1, 8));
    assert Stages(6, 8, 8).Of(2) == 8;
    assert IsNode(net, 2, StateOf(2, 8), OwnOf(2, 8));
  }

  /** For any coin, with four nodes of which one is faulty: a run after which every correct node has
      proposed, and all messages of correct nodes have been handled by all others, but nobody has
      decided. Nodes 0 and 1 are in the next epoch; node 2 is still in the first, and knows only two
      `Aux` messages for values that it believes in. It does not believe in `true`, although node 1
      does. */
  lemma NetworkStalls(coin: nat -> bool) returns (actions: seq<Action>, net: Network)
    ensures FourNodes(coin).Valid() && Reaches(FourNodes(coin), actions, net) && net.Keys == {0, 1, 2}
    ensures forall i :: i in net ==> net[i].state.decision.None? && net[i].state.estimated.Some?
    ensures AllDelivered(net, actions)
    ensures net[0].state.epoch == 1 && net[1].state.epoch == 1 && net[2].state.epoch == 0
    ensures net[2].state.sbv.binValues == {false} && Sbv.CountAux(net[2].state.sbv) == 2
    ensures Input(0, false) in actions && Input(1, true) in actions && Input(2, true) in actions
  {
    hide At, ProposalsActions, Node2BelievesActions, Node0GoesOnActions, Node1GoesOnActions, Node2HearsActions;
    hide TheRestIsLateActions, Reaches, WellFormed, StateOf, OwnOf, AllDelivered;
    net := Begin(coin);
    actions, net := Proposals(coin, [], net);
    actions, net := Node2Believes(coin, actions, net);
    actions, net := Node0GoesOn(coin, actions, net);
    actions, net := Node1GoesOn(coin, actions, net);
    actions, net := Node2Hears(coin, actions, net);
    actions, net := TheRestIsLate(coin, actions, net);
    assert actions == RunActions();
    EndIsStuck(coin, actions, net);
    EndIsDelivered(coin, actions, net);
    InputsAreMade();
  }

  lemma InputsAreMade()
    ensures Input(0, false) in RunActions() && Input(1, true) in RunActions() && Input(2, true) in RunActions()
  {
    hide Node2BelievesActions, Node0GoesOnActions, Node1GoesOnActions, Node2HearsActions, TheRestIsLateActions;
    var first := ProposalsActions();
    assert first[0] == Input(0, false) && first[1] == Input(1, true) && first[2] == Input(2, true);
    assert forall a :: a in first ==> a in RunActions();
  }
}
