/** Runs of Binary Agreement in which everything has been handled: no message is lost, and where a
    network can get stuck. */
module BinaryAgreementLiveness {
  import opened Options
  import opened Quorums
  import opened BoolMultimaps
  import opened BinaryAgreementSpec
  import opened BinaryAgreementHistory
  import opened BinaryAgreementNode
  import opened BinaryAgreementNetwork
  import opened BinaryAgreementRecords
  import opened BinaryAgreementProgress
  import opened BinaryAgreementSends
  import opened BinaryAgreementRounds
  import Sbv = SbvSpec
  import SbvThresholds
  import Ts = ThresholdSignSpec

  // ----- Every run keeps its nodes live -----

  /** The node acts as soon as it can, has nothing queued for its epoch, and has sent what it
      notes as sent. */
  ghost predicate NodeLive(cfg: Config, h: History, s: State) {
    && Live(cfg, s) && IsDrained(s)
    && (cfg.net.IsValidator() ==>
          && (forall m :: NotesSent(cfg, s, m) ==> (cfg.net.ourId, m) in h.heard)
          && (s.decision.Some? ==> HasTerminated(cfg, h, s.decision.value)))
  }

  ghost predicate HasTerminated(cfg: Config, h: History, b: bool) {
    exists e: nat :: Said(h, cfg.net.ourId, e, Term(b))
  }

  ghost predicate AllLive(sys: System, net: Network)
    requires sys.n > 0
  {
    forall i {:trigger NodeLive(sys.Config(i), net[i].history, net[i].state)} ::
      i in net ==> NodeLive(sys.Config(i), net[i].history, net[i].state)
  }

  lemma NodeStaysLive(cfg: Config, h: History, s: State, r: Outcome)
    requires NodeLive(cfg, h, s) && Sends(cfg, s, r) && Live(cfg, r.state) && IsDrained(r.state)
    ensures NodeLive(cfg, Extend(cfg, h, r.step.messages), r.state)
  {
    hide NotesSent, Live;
    var h' := Extend(cfg, h, r.step.messages);
    if cfg.net.IsValidator() && r.state.decision.Some? {
      var b := r.state.decision.value;
      if s.decision.Some? {
        var e: nat :| Said(h, cfg.net.ourId, e, Term(b));
        assert Said(h', cfg.net.ourId, e, Term(b));
      } else {
        var e :| Message(e, Term(b)) in r.step.messages;
        assert Said(h', cfg.net.ourId, e, Term(b));
      }
    }
  }

  lemma ReceivedLive(cfg: Config, h: History, h': History, s: State)
    requires NodeLive(cfg, h, s) && Extends(h, h')
    ensures NodeLive(cfg, h', s)
  {
    hide NotesSent, Live;
    if cfg.net.IsValidator() && s.decision.Some? {
      var e: nat :| Said(h, cfg.net.ourId, e, Term(s.decision.value));
      assert Said(h', cfg.net.ourId, e, Term(s.decision.value));
    }
  }

  lemma StepLive(sys: System, net: Network, a: Action)
    requires WellFormed(sys, net) && Enabled(sys, net, a) && AllLive(sys, net)
    ensures AllLive(sys, Apply(sys, net, a))
  {
    hide NodeLive, Propose, HandleMessage, Sends, Live, KeepsAll, Settled;
    var cfg, h, s := sys.Config(a.to), net[a.to].history, net[a.to].state;
    var h1 := BinaryAgreementNetwork.Received(h, a);
    assert Extends(h, h1);
    ReceivedLive(cfg, h, h1, s);
    LiveOf(cfg, h, s);
    match a {
      case Input(_, value) =>
        ProposeLive(cfg, s, value);
        ProposeKeeps(cfg, s, value);
        ProposeSends(cfg, s, value);
      case Deliver(_, from, msg) =>
        HandleMessageLive(cfg, s, from, msg);
        HandleMessageKeeps(cfg, s, from, msg);
        HandleMessageSends(cfg, s, from, msg);
    }
    NodeStaysLive(cfg, h1, s, Act(sys, net, a));
  }

  lemma LiveOf(cfg: Config, h: History, s: State)
    requires NodeLive(cfg, h, s)
    ensures Live(cfg, s) && IsDrained(s)
  {
  }

  lemma InitialAllLive(sys: System)
    requires sys.Valid()
    ensures AllLive(sys, Initial(sys))
  {
    forall i | i in sys.correct ensures NodeLive(sys.Config(i), NO_HISTORY, INITIAL) {
      InitialLive(sys.Config(i));
    }
  }

  lemma {:induction false} PrefixLive(sys: System, actions: seq<Action>, states: seq<Network>, net: Network, k: nat)
    requires sys.Valid() && IsRun(sys, actions, states, net) && k <= |actions|
    ensures AllLive(sys, states[k])
  {
    hide AllLive, IsStep, Initial;
    if k == 0 {
      InitialAllLive(sys);
    } else {
      PrefixLive(sys, actions, states, net, k - 1);
      StepOf(sys, actions, states, net, k - 1);
      IsStepLive(sys, states[k - 1], actions[k - 1], states[k]);
    }
  }

  lemma IsStepLive(sys: System, before: Network, a: Action, after: Network)
    requires IsStep(sys, before, a, after) && AllLive(sys, before)
    ensures AllLive(sys, after)
  {
    hide AllLive, Apply, WellFormed, Enabled;
    StepLive(sys, before, a);
  }

  /** In every run, every correct node is live, and has sent what it notes as sent. */
  lemma RunLive(sys: System, actions: seq<Action>, net: Network)
    requires sys.Valid() && Reaches(sys, actions, net)
    ensures AllLive(sys, net)
  {
    hide AllLive, IsStep, Initial;
    var states: seq<Network> :| IsRun(sys, actions, states, net);
    PrefixLive(sys, actions, states, net, |actions|);
  }

  // ----- No message is lost -----

  lemma StepKeeps(sys: System, net: Network, a: Action, i: nat)
    requires WellFormed(sys, net) && Enabled(sys, net, a) && i in net
    ensures KeepsAll(net[i].state, Apply(sys, net, a)[i].state)
  {
    hide KeepsAll, Propose, HandleMessage, Settled, IsKept;
    if i == a.to {
      match a {
        case Input(_, value) => ProposeKeeps(sys.Config(i), net[i].state, value);
        case Deliver(_, from, msg) => HandleMessageKeeps(sys.Config(i), net[i].state, from, msg);
      }
    } else {
      KeepsItself(net[i].state);
    }
  }

  lemma {:induction false} RunKeeps(
    sys: System, actions: seq<Action>, states: seq<Network>, net: Network, a: nat, b: nat, i: nat)
    requires IsRun(sys, actions, states, net) && a <= b <= |actions| && i in states[a]
    ensures i in states[b] && KeepsAll(states[a][i].state, states[b][i].state)
    decreases b - a
  {
    hide KeepsAll, IsStep, Initial;
    if a == b {
      KeepsItself(states[a][i].state);
    } else {
      RunKeeps(sys, actions, states, net, a, b - 1, i);
      StepOf(sys, actions, states, net, b - 1);
      IsStepKeeps(sys, states[b - 1], actions[b - 1], states[b], i);
      KeepsTwice(states[a][i].state, states[b - 1][i].state, states[b][i].state);
    }
  }

  lemma IsStepKeeps(sys: System, before: Network, a: Action, after: Network, i: nat)
    requires IsStep(sys, before, a, after) && i in before
    ensures i in after && KeepsAll(before[i].state, after[i].state)
  {
    hide KeepsAll, WellFormed, Enabled, Act;
    StepKeeps(sys, before, a, i);
  }

  /** Node `i` has handled this message from `j`, and not more than a thousand epochs early. */
  ghost predicate IsHandled(actions: seq<Action>, states: seq<Network>, i: nat, j: nat, msg: Message) {
    exists k: nat :: HandledAt(actions, states, i, j, msg, k)
  }

  ghost predicate HandledAt(actions: seq<Action>, states: seq<Network>, i: nat, j: nat, msg: Message, k: nat) {
    && k < |actions| && k < |states| && actions[k] == Deliver(i, j, msg)
    && i in states[k] && msg.epoch <= states[k][i].state.epoch + MAX_FUTURE_EPOCHS
  }

  /** What was recorded is what the sender has said, this or something else of its kind. */
  ghost predicate Stands(h: History, s: State, j: nat, msg: Message, c: Content) {
    && (c == msg.content || (IsOther(msg.content, c) && Said(h, j, msg.epoch, c)))
    && (if msg.epoch == s.epoch then IsCounted(s, j, c) else IsQueued(s, j, msg.epoch, c))
  }

  /** In every run: a message for the current epoch or a later one that a node has handled is
      counted, or waits in the queue, until the node decides; at any time after, and through all
      changes of the epoch. Of a sender that contradicts itself, one message of each kind is. */
  lemma NothingIsLost(
    sys: System, actions: seq<Action>, states: seq<Network>, net: Network, i: nat, j: nat, msg: Message)
    returns (c: Content)
    requires sys.Valid() && IsRun(sys, actions, states, net) && i in net && IsHandled(actions, states, i, j, msg)
    requires net[i].state.decision.None? && net[i].state.epoch <= msg.epoch
    ensures Stands(net[i].history, net[i].state, j, msg, c)
  {
    hide KeepsAll, IsStep, Initial, IsKept, IsCounted, IsQueued, NetworkInv, AllLive;
    var k: nat :| HandledAt(actions, states, i, j, msg, k);
    StepOf(sys, actions, states, net, k);
    PrefixInv(sys, actions, states, net, k);
    c := IsRecorded(sys, states[k], actions[k], states[k + 1]);
    RunKeeps(sys, actions, states, net, k, k + 1, i);
    RunKeeps(sys, actions, states, net, k + 1, |actions|, i);
    RunGrows(sys, actions, states, net, k, |actions|);
    KeepsOne(states[k + 1][i].state, net[i].state, j, msg.epoch, c);
    PrefixLive(sys, actions, states, net, |actions|);
    KeptStands(sys, net, i, j, msg, c);
  }

  lemma KeptStands(sys: System, net: Network, i: nat, j: nat, msg: Message, c: Content)
    requires sys.n > 0 && AllLive(sys, net) && i in net && IsKept(net[i].state, j, msg.epoch, c)
    requires net[i].state.decision.None? && net[i].state.epoch <= msg.epoch
    ensures if msg.epoch == net[i].state.epoch then IsCounted(net[i].state, j, c)
            else IsQueued(net[i].state, j, msg.epoch, c)
  {
    hide IsCounted;
    LiveOf(sys.Config(i), net[i].history, net[i].state);
  }

  lemma IsRecorded(sys: System, before: Network, a: Action, after: Network) returns (c: Content)
    requires IsStep(sys, before, a, after) && NetworkInv(sys, before) && a.Deliver?
    requires a.msg.epoch <= before[a.to].state.epoch + MAX_FUTURE_EPOCHS
    ensures a.to in after && IsKept(after[a.to].state, a.from, a.msg.epoch, c)
    ensures c == a.msg.content || (IsOther(a.msg.content, c) && Said(before[a.to].history, a.from, a.msg.epoch, c))
  {
    hide KeepsAll, HandleMessage, IsKept, IsOther, Settled, IsQueued;
    var s := before[a.to].state;
    HandleMessageKeeps(sys.Config(a.to), s, a.from, a.msg);
    c := a.msg.content;
    if !IsKept(after[a.to].state, a.from, a.msg.epoch, c) {
      c :| IsOther(a.msg.content, c) && IsQueued(s, a.from, a.msg.epoch, c);
      QueuedIsKept(s, a.from, a.msg.epoch, c);
      KeepsOne(s, after[a.to].state, a.from, a.msg.epoch, c);
      QueuedIsSaid(sys, before, a.to, a.from, a.msg.epoch, c);
    }
  }

  lemma QueuedIsKept(s: State, id: nat, epoch: nat, c: Content)
    requires IsQueued(s, id, epoch, c)
    ensures IsKept(s, id, epoch, c)
  {
  }

  lemma QueuedIsSaid(sys: System, net: Network, i: nat, id: nat, epoch: nat, c: Content)
    requires NetworkInv(sys, net) && i in net && IsQueued(net[i].state, id, epoch, c)
    ensures Said(net[i].history, id, epoch, c)
  {
    hide SbvInv, OwnTerm, OwnCoin, ReceivedMessages.Has, ReceivedMessages.Contents;
    assert NodeInv(sys.Config(i), net[i].history, net[i].state);
    net[i].state.incomingQueue[epoch][id].ContentsAreRecorded(c);
  }
}
