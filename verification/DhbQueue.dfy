/** Dynamic Honey Badger behind a sender queue: its runs are orderly, so that what is said about
    leaving peers in orderly runs holds for it. */
module DhbQueue {
  import opened Options
  import opened Orders
  import opened DhbSpec
  import opened DhbReplication
  import opened DhbParticipants
  import SQ = SenderQueueSpec
  import Ledger = SenderQueueLedger
  import Members = SenderQueueMembers
  import Runs = SenderQueueRuns

  // ----- Dynamic Honey Badger with its epochs -----

  /** A node, with the next epoch of the inner Honey Badger. */
  datatype Node = Node(dhb: State, hb: nat)

  function EpochOf(n: Node): SQ.Epoch {
    SQ.Epoch(n.dhb.era, n.hb)
  }

  /** A new era starts a new Honey Badger. */
  function Next(n: Node, b: HbBatch): Node {
    var t := ProcessBatch(n.dhb, b).state;
    Node(t, if t.era == n.dhb.era then n.hb + 1 else 0)
  }

  /** Honey Badger outputs these batches, in order, and none of them fails. */
  ghost predicate IsFine(n: Node, bs: seq<HbBatch>)
    decreases |bs|
  {
    bs != [] ==> ProcessBatch(n.dhb, bs[0]).Output? && bs[0].epoch == n.hb && IsFine(Next(n, bs[0]), bs[1..])
  }

  function After(n: Node, bs: seq<HbBatch>): Node
    decreases |bs|
  {
    if bs == [] then n else After(Next(n, bs[0]), bs[1..])
  }

  lemma {:induction false} FineOutput(n: Node, bs: seq<HbBatch>)
    requires IsFine(n, bs)
    ensures var o := ProcessOutput(n.dhb, bs);
            && o.error.None? && o.state == After(n, bs).dhb && |QueueBatches(o.batches)| == |bs|
    decreases |bs|
  {
    if bs != [] {
      hide ProcessBatch, QueueBatch;
      FineOutput(Next(n, bs[0]), bs[1..]);
      OutputFirst(n.dhb, bs);
    }
  }

  lemma {:induction false} FineSplit(n: Node, bs: seq<HbBatch>, cs: seq<HbBatch>)
    requires IsFine(n, bs + cs)
    ensures IsFine(n, bs) && IsFine(After(n, bs), cs) && After(n, bs + cs) == After(After(n, bs), cs)
    decreases |bs|
  {
    hide ProcessBatch;
    if bs == [] {
      assert bs + cs == cs;
    } else {
      assert (bs + cs)[1..] == bs[1..] + cs;
      FineSplit(Next(n, bs[0]), bs[1..], cs);
    }
  }

  lemma {:induction false} EpochsGrow(n: Node, bs: seq<HbBatch>)
    requires IsFine(n, bs)
    ensures SQ.Le(EpochOf(n), EpochOf(After(n, bs)))
    decreases |bs|
  {
    if bs != [] {
      hide ProcessBatch, Participants;
      DropEndsEra(n.dhb, bs[0]);
      EpochsGrow(Next(n, bs[0]), bs[1..]);
    }
  }

  lemma {:induction false} NextOfFine(n: Node, bs: seq<HbBatch>, hb: nat)
    requires IsFine(n, bs) && hb <= n.hb
    ensures IsNext(n.dhb, bs, hb)
    decreases |bs|
  {
    if bs != [] {
      hide ProcessBatch;
      if Next(n, bs[0]).dhb.era == n.dhb.era {
        NextOfFine(Next(n, bs[0]), bs[1..], hb);
      }
    }
  }

  ghost predicate SameNode(n: Node, m: Node) {
    SameState(n.dhb, m.dhb) && n.hb == m.hb
  }

  lemma {:induction false} SameAfter(n: Node, m: Node, bs: seq<HbBatch>)
    requires SameNode(n, m) && IsFine(n, bs)
    ensures IsFine(m, bs) && SameNode(After(n, bs), After(m, bs))
    decreases |bs|
  {
    if bs != [] {
      hide ProcessBatch, SameState;
      BatchSame(n.dhb, m.dhb, bs[0]);
      SameEras(n.dhb, m.dhb);
      SameEras(Next(n, bs[0]).dhb, Next(m, bs[0]).dhb);
      SameAfter(Next(n, bs[0]), Next(m, bs[0]), bs[1..]);
    }
  }

  lemma SameEras(a: State, b: State)
    requires SameState(a, b)
    ensures a.era == b.era
  {
  }

  // ----- What the sender queue sees -----

  function AllParticipants(current: set<nat>, bs: seq<SQ.Batch>): set<nat>
    decreases |bs|
  {
    if bs == [] then current else AllParticipants(Ledger.ParticipantsAfter(current, bs[0]), bs[1..])
  }

  lemma {:induction false} DropsTogether(current: set<nat>, bs: seq<SQ.Batch>, cs: seq<SQ.Batch>, p: nat)
    ensures Ledger.DropEpochs(current, bs + cs, p)
            == Ledger.DropEpochs(current, bs, p) + Ledger.DropEpochs(AllParticipants(current, bs), cs, p)
    ensures AllParticipants(current, bs + cs) == AllParticipants(AllParticipants(current, bs), cs)
    decreases |bs|
  {
    hide Ledger.Drops, Ledger.ParticipantsAfter;
    if bs == [] {
      assert bs + cs == cs;
    } else {
      assert (bs + cs)[1..] == bs[1..] + cs;
      DropsTogether(Ledger.ParticipantsAfter(current, bs[0]), bs[1..], cs, p);
    }
  }

  /** The batches that the sender queue is given when the node handles `bs`. */
  function Seen(n: Node, bs: seq<HbBatch>): seq<SQ.Batch> {
    QueueBatches(ProcessOutput(n.dhb, bs).batches)
  }

  lemma {:induction false} SeenTogether(n: Node, bs: seq<HbBatch>, cs: seq<HbBatch>)
    requires IsFine(n, bs + cs)
    ensures Seen(n, bs + cs) == Seen(n, bs) + Seen(After(n, bs), cs)
    decreases |bs|
  {
    hide ProcessBatch, QueueBatch, ProcessOutput, QueueBatches;
    if bs == [] {
      assert bs + cs == cs;
      NothingSeen(n);
    } else {
      assert (bs + cs)[1..] == bs[1..] + cs;
      FineOutput(n, bs + cs);
      OutputFirst(n.dhb, bs + cs);
      FineSplit(n, bs, cs);
      FineOutput(n, bs);
      OutputFirst(n.dhb, bs);
      SeenTogether(Next(n, bs[0]), bs[1..], cs);
    }
  }

  lemma NothingSeen(n: Node)
    ensures Seen(n, []) == []
  {
  }

  lemma {:induction false} KnownAfterAll(n: Node, bs: seq<HbBatch>, current: set<nat>)
    requires IsFine(n, bs) && IsKnown(current, n.dhb)
    ensures IsKnown(AllParticipants(current, Seen(n, bs)), After(n, bs).dhb)
    decreases |bs|
  {
    hide ProcessBatch, ProcessOutput, QueueBatch, QueueBatches, IsKnown, Ledger.ParticipantsAfter;
    if bs == [] {
      NothingSeen(n);
    } else {
      FineOutput(n, bs);
      OutputFirst(n.dhb, bs);
      KnownAfter(n.dhb, bs[0], current, 0);
      var b := QueueBatch(ProcessBatch(n.dhb, bs[0]).batch);
      KnownAfterAll(Next(n, bs[0]), bs[1..], Ledger.ParticipantsAfter(current, b));
      assert Seen(n, bs)[1..] == Seen(Next(n, bs[0]), bs[1..]);
    }
  }

  /** What the queue keeps of a call of the algorithm. */
  lemma {:induction false} BatchesSeen(s: SQ.State, bs: seq<SQ.Batch>)
    ensures var t := SQ.HandleBatches(s, bs);
            t.algoEpoch == s.algoEpoch && t.participants == AllParticipants(s.participants, bs)
    decreases |bs|
  {
    if bs != [] {
      hide SQ.HandleBatch, Ledger.ParticipantsAfter;
      BatchSeen(s, bs[0]);
      BatchesSeen(SQ.HandleBatch(s, bs[0]), bs[1..]);
    }
  }

  lemma BatchSeen(s: SQ.State, b: SQ.Batch)
    ensures var t := SQ.HandleBatch(s, b);
            t.algoEpoch == s.algoEpoch && t.participants == Ledger.ParticipantsAfter(s.participants, b)
  {
    if b.participants.Some? {
      hide SQ.AddCandidates, SQ.RemoveAll;
      var next := b.participants.value;
      var s1 := SQ.AddCandidates(s, Ascending(next), b.epoch);
      Members.AddCandidatesMembers(s, Ascending(next), b.epoch, 0);
      Members.RemoveAllMembers(s1, Ascending(s1.participants - next), b.epoch, 0);
    }
  }

  /** An announcement changes neither. */
  lemma AnnouncementSeen(s: SQ.State, sender: nat, epoch: SQ.Epoch)
    requires sender != s.ourId
    ensures var t := SQ.HandleAnnouncement(s, sender, epoch).0;
            t.algoEpoch == s.algoEpoch && t.participants == s.participants && t.isRemoved == s.isRemoved
  {
    hide SQ.Flush, SQ.Lt;
  }

  // ----- Whole runs -----

  /** The batches that all nodes handle, our node and a peer in the beginning, and our new sender
      queue. */
  datatype Setup = Setup(node: Node, peer: Node, p: nat, bs: seq<HbBatch>, queue: SQ.State) {
    ghost predicate Valid() {
      && IsFine(node, bs) && SameNode(node, peer)
      && queue.outgoing == map[] && queue.lastEpochs == map[]
      && queue.algoEpoch == EpochOf(node) && IsKnown(queue.participants, node.dhb)
    }

    /** Our node and the peer, when they have handled `k` batches. */
    function NodeAt(k: nat): Node
      requires k <= |bs|
    {
      After(node, bs[..k])
    }

    function PeerAt(k: nat): Node
      requires k <= |bs|
    {
      After(peer, bs[..k])
    }

    /** In this call, which takes our node from the batch `k` to the batch `l`, the sender queue
        gets the step that our node returns, and then finds it in its new epoch; or a node
        announces an epoch: the peer one that it is in at some time, and others any. */
    ghost predicate CallOk(c: Ledger.Call, k: nat, l: nat)
      requires k <= l <= |bs|
    {
      match c
      case AlgoCall(r) =>
        && r.epoch == EpochOf(NodeAt(l))
        && r.step.Some? && r.step.value.output == Seen(NodeAt(k), bs[k..l])
      case Announced(_, _) => k == l && IsAnnouncement(c)
    }

    ghost predicate IsAnnouncement(c: Ledger.Call) {
      c.Announced? ==>
        && c.sender != queue.ourId
        && (c.sender == p ==> exists m: nat :: m <= |bs| && c.epoch == EpochOf(PeerAt(m)))
    }

    /** A run of the sender queue. Once we are removed, the algorithm is not called. */
    ghost predicate IsRun(calls: seq<Ledger.Call>, cuts: seq<nat>) {
      && |cuts| == |calls| + 1 && cuts[0] == 0
      && (forall i {:trigger calls[i]} :: 0 <= i < |calls| ==> IsCall(calls, cuts, i))
    }

    ghost predicate IsCall(calls: seq<Ledger.Call>, cuts: seq<nat>, i: nat)
      requires |cuts| == |calls| + 1 && i < |calls|
    {
      && cuts[i] <= cuts[i + 1] <= |bs|
      && if Ledger.Run(queue, calls[..i]).isRemoved then cuts[i + 1] == cuts[i] && IsAnnouncement(calls[i])
         else CallOk(calls[i], cuts[i], cuts[i + 1])
    }

    /** What the sender queue has seen after the first `k` batches. */
    function SeenBy(k: nat): seq<SQ.Batch>
      requires k <= |bs|
    {
      Seen(node, bs[..k])
    }

    function Drops(): set<SQ.Epoch> {
      Ledger.DropEpochs(queue.participants, Seen(node, bs), p)
    }
  }

  /** As long as we are not removed, the sender queue knows the epoch and the participants. */
  ghost predicate Knows(u: Setup, t: SQ.State, k: nat)
    requires k <= |u.bs|
  {
    && t.ourId == u.queue.ourId
    && (!t.isRemoved ==>
          && t.algoEpoch == EpochOf(u.NodeAt(k))
          && t.participants == AllParticipants(u.queue.participants, u.SeenBy(k)))
  }

  lemma SeenSlice(u: Setup, k: nat, l: nat)
    requires u.Valid() && k <= l <= |u.bs|
    ensures IsFine(u.NodeAt(k), u.bs[k..l]) && u.NodeAt(l) == After(u.NodeAt(k), u.bs[k..l])
    ensures IsFine(u.node, u.bs[..k])
    ensures u.SeenBy(l) == u.SeenBy(k) + Seen(u.NodeAt(k), u.bs[k..l])
  {
    hide IsFine, Seen, After, IsKnown, SameNode;
    assert u.bs == u.bs[..l] + u.bs[l..];
    FineSplit(u.node, u.bs[..l], u.bs[l..]);
    assert u.bs[..l] == u.bs[..k] + u.bs[k..l];
    FineSplit(u.node, u.bs[..k], u.bs[k..l]);
    SeenTogether(u.node, u.bs[..k], u.bs[k..l]);
  }

  /** What a call of the algorithm that is in order does for the queue. */
  lemma CallGoesForward(u: Setup, t: SQ.State, c: Ledger.Call, k: nat, l: nat)
    requires u.Valid() && k <= l <= |u.bs| && Knows(u, t, k) && !t.isRemoved && u.CallOk(c, k, l)
    ensures Runs.GoesForward(t, c, u.p)
    ensures Runs.DropsOf(t, c, u.p) <= u.Drops()
    ensures c.AlgoCall? ==> AllParticipants(t.participants, Ledger.Output(c.result))
                            == AllParticipants(u.queue.participants, u.SeenBy(l))
  {
    if c.AlgoCall? {
      hide IsFine, Seen, After, IsKnown, SameNode, Ledger.DropEpochs, AllParticipants;
      var seen := Seen(u.NodeAt(k), u.bs[k..l]);
      SeenSlice(u, k, l);
      SeenSlice(u, l, |u.bs|);
      EpochsGrow(u.NodeAt(k), u.bs[k..l]);
      KnownAfterAll(u.node, u.bs[..k], u.queue.participants);
      DropsOfSlice(u.NodeAt(k), u.bs[k..l], t.participants, u.p);
      DropsTogether(u.queue.participants, u.SeenBy(k), seen, u.p);
      assert u.bs[..|u.bs|] == u.bs;
      DropsTogether(u.queue.participants, u.SeenBy(l), Seen(u.NodeAt(l), u.bs[l..|u.bs|]), u.p);
    }
  }

  /** The node has left the eras of the batches that drop the peer. */
  lemma DropsOfSlice(n: Node, bs: seq<HbBatch>, current: set<nat>, p: nat)
    requires IsFine(n, bs) && IsKnown(current, n.dhb)
    ensures forall l :: l in Ledger.DropEpochs(current, Seen(n, bs), p) ==> SQ.Lt(l, EpochOf(After(n, bs)))
  {
    hide ProcessOutput, QueueBatches, IsFine, IsKnown;
    FineOutput(n, bs);
    DropsEndEras(n.dhb, bs, current, p);
  }

  lemma StepKnows(u: Setup, t: SQ.State, c: Ledger.Call, k: nat, l: nat)
    requires u.Valid() && k <= l <= |u.bs| && Knows(u, t, k) && !t.isRemoved && u.CallOk(c, k, l)
    requires Ledger.QueueInv(t)
    ensures Knows(u, Ledger.Step(t, c).0, l)
  {
    match c {
      case AlgoCall(r) =>
        hide SQ.HandleBatches, SQ.Announcement, SQ.Defer, SQ.PushAll, AllParticipants, Seen, After, IsFine, IsKnown;
        CallGoesForward(u, t, c, k, l);
        BatchesSeen(t.(algoEpoch := r.epoch), r.step.value.output);
        Ledger.StepKeepsId(t, c);
      case Announced(sender, e) =>
        hide SQ.HandleAnnouncement, AllParticipants, Seen, After, IsFine, IsKnown;
        AnnouncementSeen(t, sender, e);
        Ledger.StepKeepsId(t, c);
    }
  }

  /** Every epoch that the peer is in is one, as the sender queue expects. */
  lemma PeerAnnouncesEpochs(u: Setup, m: nat)
    requires u.Valid() && m <= |u.bs|
    ensures Runs.IsEpoch(u.Drops(), EpochOf(u.PeerAt(m)))
  {
    hide ProcessOutput, QueueBatches, Runs.IsEpoch, IsKnown, SameState, Ledger.DropEpochs, IsNext;
    var first, rest := u.bs[..m], u.bs[m..];
    assert u.bs == first + rest;
    SameAfter(u.node, u.peer, u.bs);
    FineSplit(u.peer, first, rest);
    FineOutput(u.node, u.bs);
    FineOutput(u.peer, first);
    NextOfFine(u.PeerAt(m), rest, u.PeerAt(m).hb);
    AnnouncementsAreEpochs(u.node.dhb, u.peer.dhb, first, rest, u.queue.participants, u.p, u.PeerAt(m).hb);
  }

  lemma {:induction false} PrefixKnows(u: Setup, calls: seq<Ledger.Call>, cuts: seq<nat>, j: nat)
    requires u.Valid() && u.IsRun(calls, cuts) && j <= |calls|
    ensures var t := Ledger.Run(u.queue, calls[..j]);
            Ledger.QueueInv(t) && cuts[j] <= |u.bs| && Knows(u, t, cuts[j])
    ensures Runs.DropsIn(u.queue, calls[..j], u.p) <= u.Drops()
    decreases j
  {
    if j == 0 {
      NothingSeen(u.node);
      assert u.bs[..0] == [] && calls[..0] == [];
    } else {
      hide Setup.CallOk, Knows, Ledger.Step, Runs.DropsOf, Setup.Drops, Setup.Valid, Ledger.QueueInv;
      PrefixKnows(u, calls, cuts, j - 1);
      assert calls[..j][..j - 1] == calls[..j - 1] && calls[..j][j - 1] == calls[j - 1];
      var t, c := Ledger.Run(u.queue, calls[..j - 1]), calls[j - 1];
      assert u.IsCall(calls, cuts, j - 1);
      OneMoreCall(u, calls, cuts, j - 1, t, c);
    }
  }

  lemma OneMoreCall(u: Setup, calls: seq<Ledger.Call>, cuts: seq<nat>, i: nat, t: SQ.State, c: Ledger.Call)
    requires u.Valid() && |cuts| == |calls| + 1 && i < |calls| && u.IsCall(calls, cuts, i)
    requires t == Ledger.Run(u.queue, calls[..i]) && c == calls[i]
    requires Ledger.QueueInv(t) && Knows(u, t, cuts[i])
    ensures Ledger.QueueInv(Ledger.Step(t, c).0) && Knows(u, Ledger.Step(t, c).0, cuts[i + 1])
    ensures Runs.DropsOf(t, c, u.p) <= u.Drops()
  {
    CallFromOthers(u, calls, cuts, i, t);
    Ledger.StepOk(t, c);
    if t.isRemoved {
      RemovedStays(t, c);
    } else {
      CallGoesForward(u, t, c, cuts[i], cuts[i + 1]);
      StepKnows(u, t, c, cuts[i], cuts[i + 1]);
    }
  }

  lemma RemovedStays(t: SQ.State, c: Ledger.Call)
    requires t.isRemoved
    ensures Ledger.Step(t, c).0 == t
  {
  }

  lemma CallFromOthers(u: Setup, calls: seq<Ledger.Call>, cuts: seq<nat>, i: nat, t: SQ.State)
    requires |cuts| == |calls| + 1 && i < |calls| && u.IsCall(calls, cuts, i) && t.ourId == u.queue.ourId
    ensures Ledger.FromOthers(t, calls[i]) && Ledger.FromOthers(u.queue, calls[i])
    ensures calls[i].Announced? && calls[i].sender == u.p ==>
              exists m: nat :: m <= |u.bs| && calls[i].epoch == EpochOf(u.PeerAt(m))
  {
    hide Seen, After;
  }

  lemma CallOfRun(u: Setup, calls: seq<Ledger.Call>, cuts: seq<nat>, i: nat)
    requires u.IsRun(calls, cuts) && i < |calls|
    ensures u.IsCall(calls, cuts, i)
  {
    var _ := calls[i];
  }

  /** Every run of Dynamic Honey Badger behind a sender queue is orderly, for every peer that
      handles the same batches. */
  lemma RunsAreOrderly(u: Setup, calls: seq<Ledger.Call>, cuts: seq<nat>)
    requires u.Valid() && u.IsRun(calls, cuts)
    ensures Runs.IsOrderly(u.queue, calls, u.p, Runs.DropsIn(u.queue, calls, u.p))
  {
    hide Setup.CallOk, Ledger.Run, Runs.DropsIn, Runs.GoesForward, Runs.AnnouncesEpochs, Ledger.FromOthers;
    assert calls[..|calls|] == calls;
    PrefixKnows(u, calls, cuts, |calls|);
    var lasts := Runs.DropsIn(u.queue, calls, u.p);
    forall i | 0 <= i < |calls|
      ensures Ledger.FromOthers(u.queue, calls[i])
              && Runs.GoesForward(Ledger.Run(u.queue, calls[..i]), calls[i], u.p)
              && Runs.AnnouncesEpochs(calls[i], u.p, lasts)
    {
      PrefixKnows(u, calls, cuts, i);
      CallOfRun(u, calls, cuts, i);
      CallIsOrderly(u, calls, cuts, i, Ledger.Run(u.queue, calls[..i]), lasts);
    }
  }

  lemma CallIsOrderly(u: Setup, calls: seq<Ledger.Call>, cuts: seq<nat>, i: nat, t: SQ.State, lasts: set<SQ.Epoch>)
    requires u.Valid() && |cuts| == |calls| + 1 && i < |calls| && u.IsCall(calls, cuts, i)
    requires t == Ledger.Run(u.queue, calls[..i]) && Knows(u, t, cuts[i]) && lasts <= u.Drops()
    ensures Ledger.FromOthers(u.queue, calls[i]) && Runs.GoesForward(t, calls[i], u.p)
    ensures Runs.AnnouncesEpochs(calls[i], u.p, lasts)
  {
    hide IsFine, After, Seen, AllParticipants, IsKnown, SameNode, Setup.CallOk, Setup.Drops;
    CallFromOthers(u, calls, cuts, i, t);
    if !t.isRemoved {
      CallGoesForward(u, t, calls[i], cuts[i], cuts[i + 1]);
    }
    if calls[i].Announced? && calls[i].sender == u.p {
      var m: nat :| m <= |u.bs| && calls[i].epoch == EpochOf(u.PeerAt(m));
      PeerAnnouncesEpochs(u, m);
    }
  }

  /** Whenever our node comes into a new epoch, the sender queue announces it to all, unless we are
      removed; and once more in the call that removes us. Nothing else is announced. */
  lemma NewEpochIsAnnounced(u: Setup, calls: seq<Ledger.Call>, cuts: seq<nat>, i: nat, t: SQ.Target, e: SQ.Epoch)
    requires u.Valid() && u.IsRun(calls, cuts) && i < |calls| && calls[i].AlgoCall?
    requires !Ledger.Run(u.queue, calls[..i]).isRemoved
    ensures cuts[i] <= cuts[i + 1] <= |u.bs|
    ensures var s := Ledger.Run(u.queue, calls[..i]);
            var (s', sends) := Ledger.Step(s, calls[i]);
            (t, SQ.EpochStarted(e)) in sends <==>
              && cuts[i] < cuts[i + 1] && t == SQ.All && e == EpochOf(u.NodeAt(cuts[i + 1]))
              && (!s'.isRemoved || Ledger.DropEpochs(s.participants, Ledger.Output(calls[i].result), s.ourId) != {})
  {
    hide Ledger.Step, Ledger.DropEpochs, Setup.Valid, Seen, After, EpochOf, Ledger.QueueInv;
    CallOfRun(u, calls, cuts, i);
    PrefixKnows(u, calls, cuts, i);
    var s, r := Ledger.Run(u.queue, calls[..i]), calls[i].result;
    Ledger.EpochIsAnnounced(s, r, t, e);
    SeenIfAny(u, cuts[i], cuts[i + 1]);
  }

  lemma SeenIfAny(u: Setup, k: nat, l: nat)
    requires u.Valid() && k <= l <= |u.bs|
    ensures Seen(u.NodeAt(k), u.bs[k..l]) == [] <==> k == l
  {
    hide IsFine, After, IsKnown, SameNode, ProcessOutput, QueueBatches;
    SeenSlice(u, k, l);
    FineOutput(u.NodeAt(k), u.bs[k..l]);
  }

  // ----- Leaving peers -----

  /** For Dynamic Honey Badger behind a sender queue: a message of any kind that is dropped with
      a peer is for epochs after the last one of the peer, or late for it. */
  lemma DroppedForGood(u: Setup, calls: seq<Ledger.Call>, cuts: seq<nat>, c: Ledger.Call, m: SQ.Message)
    returns (last: SQ.Epoch)
    requires u.Valid() && u.IsRun(calls + [c], cuts)
    requires Ledger.Entries(Ledger.Run(u.queue, calls), c, u.p, m).dropped > 0
    ensures last in Runs.DropsIn(u.queue, calls + [c], u.p)
    ensures SQ.Lt(last, if c.AlgoCall? then c.result.epoch else Ledger.Run(u.queue, calls).algoEpoch)
    ensures SQ.Lt(last, SQ.FirstEpoch(m)) ||
            (c.Announced? && c.sender == u.p && Ledger.Receive(m, c.epoch, u.queue.maxFuture).TooLate?)
  {
    hide Setup.IsRun, Setup.Valid, Ledger.Run, Ledger.Entries, Runs.DropsIn, Runs.IsOrderly;
    RunsAreOrderly(u, calls + [c], cuts);
    last := Runs.DroppedForGood(u.queue, calls, c, u.p, m);
  }

  /** And a peer that is scheduled for removal stays, and is sent what is due, exactly until it
      announces an epoch after its last one. */
  lemma LeavesExactly(u: Setup, calls: seq<Ledger.Call>, cuts: seq<nat>, epoch: SQ.Epoch)
    requires u.Valid() && u.IsRun(calls, cuts) && u.p != u.queue.ourId
    requires u.p in Ledger.Run(u.queue, calls).lastEpochs && !Ledger.Run(u.queue, calls).isRemoved
    ensures var s1 := Ledger.Run(u.queue, calls);
            var (t, sends) := Ledger.Step(s1, Ledger.Announced(u.p, epoch));
            && s1.lastEpochs[u.p] in Runs.DropsIn(u.queue, calls, u.p)
            && u.p in s1.peerEpochs && SQ.Le(s1.peerEpochs[u.p], s1.lastEpochs[u.p])
            && (if SQ.Lt(s1.lastEpochs[u.p], epoch) then
                  u.p !in t.peerEpochs && u.p !in t.outgoing && u.p !in t.lastEpochs && sends == []
                else
                  && u.p in t.peerEpochs && t.lastEpochs == s1.lastEpochs
                  && (t, sends) == SQ.ProcessNewEpoch(SQ.Noted(s1, u.p, epoch), u.p, epoch))
  {
    hide Setup.IsRun, Setup.Valid, Ledger.Run, Runs.DropsIn, Runs.IsOrderly, Ledger.Step, SQ.ProcessNewEpoch;
    RunsAreOrderly(u, calls, cuts);
    Runs.LeavesExactly(u.queue, calls, u.p, epoch, u.p);
  }
}
