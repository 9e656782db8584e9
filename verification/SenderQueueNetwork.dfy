/** Correct nodes that talk to each other through sender queues. */
module SenderQueueNetwork {
  import opened Options
  import opened Orders
  import opened SenderQueueSpec
  import opened SenderQueueLedger

  // ----- Runs -----

  /** What new sender queues announce to each other. */
  function FirstAnnouncements(nodes: map<nat, State>): set<(nat, nat, QueueMessage)> {
    set i, p | i in nodes && p in nodes :: (i, p, EpochStarted(nodes[i].algoEpoch))
  }

  /** What correct nodes have sent to correct nodes, and to whom. Messages of the algorithm
      count only if the recipient was tracked. */
  datatype Network = Network(nodes: map<nat, State>, wire: set<(nat, nat, QueueMessage)>)

  datatype Action =
    | Work(node: nat, result: AlgoResult)
    | Hear(node: nat, sender: nat, epoch: Epoch)

  function CallOf(a: Action): Call {
    match a
    case Work(_, r) => AlgoCall(r)
    case Hear(_, sender, epoch) => Announced(sender, epoch)
  }

  /** The epoch of the algorithm never goes back. A correct node has announced what is heard
      from it, a faulty one may announce anything. */
  ghost predicate Enabled(net: Network, a: Action) {
    && a.node in net.nodes
    && (a.Work? ==> Le(net.nodes[a.node].algoEpoch, a.result.epoch))
    && (a.Hear? ==>
          && a.sender != net.nodes[a.node].ourId
          && (a.sender in net.nodes ==> (a.sender, a.node, EpochStarted(a.epoch)) in net.wire))
  }

  /** What the sends of a node put on the wire. */
  function OnWire(node: nat, s: State, sends: Sends, to: set<nat>): set<(nat, nat, QueueMessage)> {
    set tm, p | tm in sends && p in to && ToPeer(tm.0, p) && (tm.1.EpochStarted? || p in s.peerEpochs) ::
      (node, p, tm.1)
  }

  function Next(net: Network, a: Action): Network
    requires a.node in net.nodes
  {
    var (s, sends) := Step(net.nodes[a.node], CallOf(a));
    Network(net.nodes[a.node := s], net.wire + OnWire(a.node, s, sends, net.nodes.Keys))
  }

  /** New sender queues: each has announced the epoch that it starts in, and nobody is
      believed to be further than it is. */
  ghost predicate IsInitial(net: Network, maxFuture: nat) {
    && net.wire == FirstAnnouncements(net.nodes)
    && (forall i :: i in net.nodes ==> net.nodes[i].outgoing == map[])
    && (forall i :: i in net.nodes ==> net.nodes[i].ourId == i && net.nodes[i].maxFuture == maxFuture)
    && EpochsKnown(net)
  }

  ghost predicate IsStep(before: Network, a: Action, after: Network) {
    Enabled(before, a) && after == Next(before, a)
  }

  ghost predicate IsRun(start: Network, actions: seq<Action>, states: seq<Network>, net: Network) {
    && |states| == |actions| + 1
    && states[0] == start && states[|actions|] == net
    && forall k {:trigger actions[k]} :: 0 <= k < |actions| ==> IsStep(states[k], actions[k], states[k + 1])
  }

  ghost predicate Reaches(start: Network, actions: seq<Action>, net: Network) {
    exists states: seq<Network> :: IsRun(start, actions, states, net)
  }

  // ----- The invariant -----

  /** No correct node is believed to be in a later epoch than it is. */
  ghost predicate EpochsKnown(net: Network) {
    forall i, p :: i in net.nodes && p in net.nodes && p in net.nodes[i].peerEpochs ==>
                     Le(net.nodes[i].peerEpochs[p], net.nodes[p].algoEpoch)
  }

  ghost predicate WireOk(net: Network, maxFuture: nat) {
    && (forall i, p, e :: (i, p, EpochStarted(e)) in net.wire ==> i in net.nodes && Le(e, net.nodes[i].algoEpoch))
    && (forall i, p, m :: (i, p, Algo(m)) in net.wire ==>
                            p in net.nodes && !IsPremature(m, net.nodes[p].algoEpoch, maxFuture))
  }

  ghost predicate NetworkInv(net: Network, maxFuture: nat) {
    && (forall i :: i in net.nodes ==>
          QueueInv(net.nodes[i]) && net.nodes[i].ourId == i && net.nodes[i].maxFuture == maxFuture)
    && EpochsKnown(net)
    && WireOk(net, maxFuture)
  }

  lemma PrematureStays(m: Message, a: Epoch, b: Epoch, maxFuture: nat)
    requires Le(a, b) && !IsPremature(m, a, maxFuture)
    ensures !IsPremature(m, b, maxFuture)
  {
  }

  /** Recorded epochs change only by announcements, and for new peers. */
  ghost predicate EpochsFrom(s: State, s': State) {
    forall p :: p in s'.peerEpochs ==> s'.peerEpochs[p] == ZERO || (p in s.peerEpochs && s'.peerEpochs[p] == s.peerEpochs[p])
  }

  lemma {:induction false} RemoveAllEpochs(s: State, ids: seq<nat>, last: Epoch)
    ensures EpochsFrom(s, RemoveAll(s, ids, last))
    decreases |ids|
  {
    if ids != [] {
      assert EpochsFrom(s, RemoveAfter(s, ids[0], last));
      RemoveAllEpochs(RemoveAfter(s, ids[0], last), ids[1..], last);
    }
  }

  lemma {:induction false} AddCandidatesEpochs(s: State, ids: seq<nat>, at: Epoch)
    ensures EpochsFrom(s, AddCandidates(s, ids, at))
    decreases |ids|
  {
    if ids != [] {
      assert EpochsFrom(s, AddCandidate(s, ids[0], at));
      AddCandidatesEpochs(AddCandidate(s, ids[0], at), ids[1..], at);
    }
  }

  lemma {:induction false} HandleBatchesEpochs(s: State, bs: seq<Batch>)
    ensures EpochsFrom(s, HandleBatches(s, bs))
    decreases |bs|
  {
    if bs != [] {
      hide AddCandidates, RemoveAll, Ascending;
      var s1 := HandleBatch(s, bs[0]);
      if bs[0].participants.Some? {
        var next := bs[0].participants.value;
        var added := AddCandidates(s, Ascending(next), bs[0].epoch);
        AddCandidatesEpochs(s, Ascending(next), bs[0].epoch);
        RemoveAllEpochs(added, Ascending(added.participants - next), bs[0].epoch);
      }
      assert EpochsFrom(s, s1);
      HandleBatchesEpochs(s1, bs[1..]);
    }
  }

  /** What a call changes, as far as others can tell. */
  ghost predicate Changes(s: State, c: Call, s': State) {
    && s'.ourId == s.ourId && s'.maxFuture == s.maxFuture
    && (s'.algoEpoch == s.algoEpoch || (c.AlgoCall? && s'.algoEpoch == c.result.epoch))
    && (forall p :: p in s'.peerEpochs ==>
          || s'.peerEpochs[p] == ZERO
          || (p in s.peerEpochs && s'.peerEpochs[p] == s.peerEpochs[p])
          || (c.Announced? && p == c.sender && s'.peerEpochs[p] == c.epoch))
  }

  lemma StepChanges(s: State, c: Call)
    requires QueueInv(s)
    ensures Changes(s, c, Step(s, c).0)
  {
    hide HandleBatches, Announcement, Defer, PushAll, Flush, Lt;
    match c {
      case AlgoCall(r) =>
        AfterOutputKeeps(s, r, 0);
        if r.step.Some? {
          HandleBatchesEpochs(s.(algoEpoch := r.epoch), r.step.value.output);
        }
      case Announced(sender, epoch) =>
    }
  }

  /** A node announces the epoch that it is in. */
  lemma AnnouncesOwnEpoch(s: State, c: Call, t: Target, e: Epoch)
    requires (t, EpochStarted(e)) in Step(s, c).1 && QueueInv(s)
    ensures e == Step(s, c).0.algoEpoch
  {
    hide HandleBatches, Defer, PushAll, Flush, AnyRemovesUs, Lt;
    match c {
      case AlgoCall(r) =>
        AfterOutputKeeps(s, r, 0);
        if r.step.Some? {
          DeferIsAlgo(AfterOutput(s, r), Messages(r));
        }
      case Announced(sender, epoch) =>
        if sender in s.outgoing {
          FlushIsAlgo(sender, s.outgoing[sender], KeysUpTo(s.outgoing[sender], epoch), epoch);
        }
    }
  }

  lemma NextEpochs(net: Network, a: Action, maxFuture: nat)
    requires NetworkInv(net, maxFuture) && Enabled(net, a)
    ensures EpochsKnown(Next(net, a))
    ensures forall i :: i in net.nodes ==> Le(net.nodes[i].algoEpoch, Next(net, a).nodes[i].algoEpoch)
  {
    hide Step, OnWire, QueueInv, IsPremature;
    StepChanges(net.nodes[a.node], CallOf(a));
  }

  lemma NextWire(net: Network, a: Action, maxFuture: nat)
    requires NetworkInv(net, maxFuture) && Enabled(net, a) && EpochsKnown(Next(net, a))
    requires forall i :: i in net.nodes ==> Le(net.nodes[i].algoEpoch, Next(net, a).nodes[i].algoEpoch)
    ensures WireOk(Next(net, a), maxFuture)
  {
    hide Step, QueueInv, IsPremature, Lt, EpochsKnown;
    var net' := Next(net, a);
    var s := net.nodes[a.node];
    StepChanges(s, CallOf(a));
    forall i, p, e | (i, p, EpochStarted(e)) in net'.wire
      ensures i in net'.nodes && Le(e, net'.nodes[i].algoEpoch)
    {
      if (i, p, EpochStarted(e)) in net.wire {
        LeTransitive(e, net.nodes[i].algoEpoch, net'.nodes[i].algoEpoch);
      } else {
        var t :| (t, EpochStarted(e)) in Step(s, CallOf(a)).1;
        AnnouncesOwnEpoch(s, CallOf(a), t, e);
        LeReflexive(e);
      }
    }
    forall i, p, m | (i, p, Algo(m)) in net'.wire
      ensures p in net'.nodes && !IsPremature(m, net'.nodes[p].algoEpoch, maxFuture)
    {
      if (i, p, Algo(m)) in net.wire {
        PrematureStays(m, net.nodes[p].algoEpoch, net'.nodes[p].algoEpoch, maxFuture);
      } else {
        var t :| (t, Algo(m)) in Step(s, CallOf(a)).1 && ToPeer(t, p);
        NewIsNotEarly(net, a, maxFuture, t, p, m);
      }
    }
  }

  lemma LeTransitive(a: Epoch, b: Epoch, c: Epoch)
    requires Le(a, b) && Le(b, c)
    ensures Le(a, c)
  {
  }

  lemma LeReflexive(a: Epoch)
    ensures Le(a, a)
  {
  }

  lemma NewIsNotEarly(net: Network, a: Action, maxFuture: nat, t: Target, p: nat, m: Message)
    requires NetworkInv(net, maxFuture) && Enabled(net, a) && EpochsKnown(Next(net, a))
    requires (t, Algo(m)) in Step(net.nodes[a.node], CallOf(a)).1 && ToPeer(t, p) && p in net.nodes
    requires p in Step(net.nodes[a.node], CallOf(a)).0.peerEpochs
    ensures !IsPremature(m, Next(net, a).nodes[p].algoEpoch, maxFuture)
  {
    hide Step, QueueInv, IsPremature, Lt, OnWire;
    EmittedIsAccepted(net.nodes[a.node], CallOf(a), t, p, m);
    var net' := Next(net, a);
    SortedAsReceived(m, net'.nodes[a.node].peerEpochs[p], maxFuture);
    assert p in net'.nodes[a.node].peerEpochs;
    PrematureStays(m, net'.nodes[a.node].peerEpochs[p], net'.nodes[p].algoEpoch, maxFuture);
  }

  lemma NextInv(net: Network, a: Action, maxFuture: nat)
    requires NetworkInv(net, maxFuture) && Enabled(net, a)
    ensures NetworkInv(Next(net, a), maxFuture)
  {
    hide Step, QueueInv, OnWire, EpochsKnown, WireOk;
    NextEpochs(net, a, maxFuture);
    NextWire(net, a, maxFuture);
    StepOk(net.nodes[a.node], CallOf(a));
    StepChanges(net.nodes[a.node], CallOf(a));
  }

  lemma InitialInv(start: Network, maxFuture: nat)
    requires IsInitial(start, maxFuture)
    ensures NetworkInv(start, maxFuture)
  {
  }

  lemma RunInv(start: Network, actions: seq<Action>, net: Network, maxFuture: nat)
    requires IsInitial(start, maxFuture) && Reaches(start, actions, net)
    ensures NetworkInv(net, maxFuture)
  {
    hide NetworkInv, IsStep, IsInitial;
    var states: seq<Network> :| IsRun(start, actions, states, net);
    PrefixInv(start, actions, states, net, maxFuture, |actions|);
  }

  lemma {:induction false} PrefixInv(
    start: Network, actions: seq<Action>, states: seq<Network>, net: Network, maxFuture: nat, k: nat)
    requires IsInitial(start, maxFuture) && IsRun(start, actions, states, net) && k <= |actions|
    ensures NetworkInv(states[k], maxFuture)
  {
    if k == 0 {
      InitialInv(start, maxFuture);
    } else {
      hide NetworkInv, Next, IsInitial, Enabled;
      PrefixInv(start, actions, states, net, maxFuture, k - 1);
      assert IsStep(states[k - 1], actions[k - 1], states[k]);
      NextInv(states[k - 1], actions[k - 1], maxFuture);
    }
  }

  /** In every run: a message that a correct node sends to a correct node that it tracks
      never comes too early. Whenever it arrives, no fault is reported for it. */
  lemma NoEarlyMessage(
    start: Network, actions: seq<Action>, net: Network, maxFuture: nat, sender: nat, receiver: nat, m: Message)
    requires IsInitial(start, maxFuture) && Reaches(start, actions, net)
    requires (sender, receiver, Algo(m)) in net.wire
    ensures receiver in net.nodes && !Receive(m, net.nodes[receiver].algoEpoch, maxFuture).TooEarly?
  {
    hide Reaches, Receive, IsPremature;
    RunInv(start, actions, net, maxFuture);
    SortedAsReceived(m, net.nodes[receiver].algoEpoch, maxFuture);
  }
}
