/** Whole runs: the batches are consecutive, and two nodes output the same ones. */
module HoneyBadgerRuns {
  import opened Options
  import opened Merkle
  import opened SubsetSpec
  import opened EpochStateSpec
  import opened EpochStateRuns
  import opened HoneyBadgerSpec

  datatype Call = Call(epoch: nat, events: seq<Event>)

  /** With the events that were handled for each epoch, and all batches so far. */
  datatype Node<!C> = Node(state: HoneyBadgerSpec.State, fed: map<nat, seq<Event>>, batches: seq<Batch<C>>)

  function FedTo<C>(n: Node<C>, epoch: nat): seq<Event> {
    if epoch in n.fed then n.fed[epoch] else []
  }

  function Step<C>(cfg: Config<C>, n: Node<C>, c: Call): Node<C> {
    var (s, batches) := Feed(cfg, n.state, c.epoch, c.events);
    Node(s,
         if IsOpen(cfg, n.state, c.epoch) then n.fed[c.epoch := FedTo(n, c.epoch) + c.events] else n.fed,
         n.batches + batches)
  }

  function Run<C>(cfg: Config<C>, calls: seq<Call>): Node<C> {
    if calls == [] then Node(HoneyBadgerSpec.INITIAL, map[], [])
    else Step(cfg, Run(cfg, calls[..|calls| - 1]), calls[|calls| - 1])
  }

  /** What becomes of an epoch with these events. */
  function BatchOf<C>(cfg: Config<C>, events: seq<Event>): Option<Batch<C>> {
    TryOutputBatch(EpochStateRuns.Run(cfg.handler, events), cfg.deserialize)
  }

  /** There is one batch for every closed epoch, which its events determine; the open epochs
      are the window that the code keeps. */
  ghost predicate NodeInv<C>(cfg: Config<C>, n: Node<C>) {
    && |n.batches| == n.state.epoch
    && (forall e :: 0 <= e < |n.batches| ==> BatchOf(cfg, FedTo(n, e)) == Some(n.batches[e]))
    && (forall e :: e in n.state.epochs ==> n.state.epoch <= e <= n.state.epoch + cfg.maxFuture)
    && (forall e :: e in n.state.epochs ==> n.state.epochs[e] == EpochStateRuns.Run(cfg.handler, FedTo(n, e)))
    && (forall e :: e >= n.state.epoch && e !in n.state.epochs ==> FedTo(n, e) == [])
  }

  lemma {:induction false} HandleAllIsRun(handler: Handler, before: seq<Event>, events: seq<Event>)
    ensures HandleAll(EpochStateRuns.Run(handler, before), events) == EpochStateRuns.Run(handler, before + events)
    decreases |events|
  {
    hide EpochStateRuns.Handle;
    if events == [] {
      assert before + events == before;
    } else {
      var next := before + [events[0]];
      assert next[..|next| - 1] == before;
      HandleAllIsRun(handler, next, events[1..]);
      assert next + events[1..] == before + events;
    }
  }

  /** Closing the current epoch with its batch. */
  function CloseEpoch<C>(cfg: Config<C>, n: Node<C>): Node<C>
    requires IsReady(cfg, n.state)
  {
    n.(state := HoneyBadgerSpec.State(n.state.epoch + 1, n.state.epochs - {n.state.epoch}),
       batches := n.batches + [TryOutputBatch(n.state.epochs[n.state.epoch], cfg.deserialize).value])
  }

  lemma CloseKeeps<C>(cfg: Config<C>, n: Node<C>)
    requires NodeInv(cfg, n) && IsReady(cfg, n.state)
    ensures NodeInv(cfg, CloseEpoch(cfg, n))
  {
    hide EpochStateRuns.Run, TryOutputBatch, FedTo;
    var m := CloseEpoch(cfg, n);
    assert forall e :: FedTo(m, e) == FedTo(n, e) by {
      SameFed(n, m);
    }
  }

  lemma SameFed<C>(n: Node<C>, m: Node<C>)
    requires n.fed == m.fed
    ensures forall e :: FedTo(m, e) == FedTo(n, e)
  {
  }

  lemma {:induction false} OutputKeeps<C>(cfg: Config<C>, n: Node<C>)
    requires NodeInv(cfg, n)
    ensures var (s, batches) := TryOutputBatches(cfg, n.state);
            NodeInv(cfg, n.(state := s, batches := n.batches + batches)) && !IsReady(cfg, s)
    decreases |n.state.epochs|
  {
    hide NodeInv, TryOutputBatch;
    if !IsReady(cfg, n.state) {
      assert n.batches + [] == n.batches;
    } else {
      var n1 := CloseEpoch(cfg, n);
      RemoveOne(n.state.epochs, n.state.epoch);
      CloseKeeps(cfg, n);
      OutputStep(cfg, n);
      hide TryOutputBatches, IsReady;
      OutputKeeps(cfg, n1);
    }
  }

  /** What is output from here on is the batch of this epoch, and then the rest. */
  lemma OutputStep<C>(cfg: Config<C>, n: Node<C>)
    requires IsReady(cfg, n.state)
    ensures var n1 := CloseEpoch(cfg, n);
            && TryOutputBatches(cfg, n.state).0 == TryOutputBatches(cfg, n1.state).0
            && n.batches + TryOutputBatches(cfg, n.state).1 == n1.batches + TryOutputBatches(cfg, n1.state).1
  {
    hide TryOutputBatch;
    var n1 := CloseEpoch(cfg, n);
    var batch, rest := n1.batches[|n.batches|], TryOutputBatches(cfg, n1.state).1;
    assert (n.batches + [batch]) + rest == n.batches + ([batch] + rest);
  }

  /** Handling events of an open epoch, before its batch is looked for. */
  function FeedOnly<C>(cfg: Config<C>, n: Node<C>, c: Call): Node<C> {
    n.(state := n.state.(epochs := n.state.epochs[c.epoch := HandleAll(EpochOf(cfg, n.state, c.epoch), c.events)]),
       fed := n.fed[c.epoch := FedTo(n, c.epoch) + c.events])
  }

  lemma FeedKeeps<C>(cfg: Config<C>, n: Node<C>, c: Call)
    requires NodeInv(cfg, n) && IsOpen(cfg, n.state, c.epoch)
    ensures NodeInv(cfg, FeedOnly(cfg, n, c))
  {
    var before := FedTo(n, c.epoch);
    NothingFed(cfg.handler);
    FeedIsNoted(cfg, n, c);
    HandleAllIsRun(cfg.handler, before, c.events);
    hide EpochStateRuns.Run, HandleAll, TryOutputBatch, FedTo, BatchOf, EpochStateSpec.Initial;
    var m := FeedOnly(cfg, n, c);
    forall e | e in m.state.epochs ensures m.state.epochs[e] == EpochStateRuns.Run(cfg.handler, FedTo(m, e)) {
      if e == c.epoch && e !in n.state.epochs {
        assert before == [];
      }
    }
  }

  lemma NothingFed(handler: Handler)
    ensures EpochStateRuns.Run(handler, []) == EpochStateSpec.Initial(handler)
  {
  }

  lemma FeedIsNoted<C>(cfg: Config<C>, n: Node<C>, c: Call)
    ensures FedTo(FeedOnly(cfg, n, c), c.epoch) == FedTo(n, c.epoch) + c.events
    ensures forall e :: e != c.epoch ==> FedTo(FeedOnly(cfg, n, c), e) == FedTo(n, e)
  {
    hide HandleAll, EpochOf;
  }

  lemma StepKeeps<C>(cfg: Config<C>, n: Node<C>, c: Call)
    requires NodeInv(cfg, n)
    ensures NodeInv(cfg, Step(cfg, n, c))
  {
    hide TryOutputBatches, NodeInv, HandleAll, EpochOf, FedTo;
    if IsOpen(cfg, n.state, c.epoch) {
      FeedKeeps(cfg, n, c);
      OutputKeeps(cfg, FeedOnly(cfg, n, c));
    } else {
      assert n.batches + [] == n.batches;
    }
  }

  /** In every run: closed epochs have one batch each, in order, and the open epochs stay
      within the window. */
  lemma {:induction false} RunInv<C>(cfg: Config<C>, calls: seq<Call>)
    ensures NodeInv(cfg, Run(cfg, calls))
  {
    if calls != [] {
      hide NodeInv, Step;
      RunInv(cfg, calls[..|calls| - 1]);
      StepKeeps(cfg, Run(cfg, calls[..|calls| - 1]), calls[|calls| - 1]);
    }
  }

  // ----- Equal subsets give equal batches -----

  /** Nothing is output after `Done`, and each proposer has one contribution. */
  ghost predicate IsSubsetRun(events: seq<Event>) {
    && DoneIsLast(events)
    && forall p, v, w :: FromSubset(Contribution(p, v)) in events && FromSubset(Contribution(p, w)) in events ==> v == w
  }

  /** What an epoch has collected from its contributions. */
  ghost predicate HasCollected(s: EpochData, events: seq<Event>) {
    && s.handler == Incremental
    && (s.complete.Some? <==> FromSubset(Done) in events)
    && (s.complete.Some? ==> s.complete.value == s.accepted)
    && (forall p :: p in s.accepted <==> IsProposer(events, p))
    && (forall p, v :: FromSubset(Contribution(p, v)) in events ==> p in s.decryption && s.decryption[p] == Decrypted(v))
  }

  ghost predicate IsProposer(events: seq<Event>, p: nat) {
    exists v :: FromSubset(Contribution(p, v)) in events
  }

  lemma {:induction false} CollectsAll(events: seq<Event>)
    requires IsSubsetRun(events)
    ensures HasCollected(EpochStateRuns.Run(Incremental, events), events)
  {
    if events != [] {
      var last := |events| - 1;
      var before, e := events[..last], events[last];
      assert events == before + [e];
      assert IsSubsetRun(before);
      CollectsAll(before);
      CollectsOne(EpochStateRuns.Run(Incremental, before), before, e);
    }
  }

  lemma CollectsOne(s: EpochData, before: seq<Event>, e: Event)
    requires HasCollected(s, before) && IsSubsetRun(before + [e])
    ensures HasCollected(EpochStateRuns.Handle(s, e), before + [e])
  {
    var events := before + [e];
    assert forall x :: x in events <==> x in before || x == e;
    assert FromSubset(Done) in before ==> e.Share? by {
      if FromSubset(Done) in before {
        var i :| 0 <= i < |before| && before[i] == FromSubset(Done);
        assert events[i] == FromSubset(Done) && events[|before|] == e;
      }
    }
    match e {
      case FromSubset(Contribution(p, v)) =>
        InsertMore(s, [], p, v);
        assert [] + [(p, v)] == [(p, v)] && s.(handler := Incremental) == s;
        assert IsProposer(events, p);
        forall q ensures IsProposer(events, q) <==> IsProposer(before, q) || q == p {
          SameProposers(before, e, q);
        }
      case FromSubset(Done) =>
        forall q ensures IsProposer(events, q) <==> IsProposer(before, q) {
          SameProposers(before, e, q);
        }
      case Share(p) =>
        forall q ensures IsProposer(events, q) <==> IsProposer(before, q) {
          SameProposers(before, e, q);
        }
    }
  }

  lemma SameProposers(before: seq<Event>, e: Event, q: nat)
    ensures IsProposer(before + [e], q)
            <==> IsProposer(before, q) || (e.FromSubset? && e.output.Contribution? && e.output.proposer == q)
  {
    if IsProposer(before, q) {
      var v :| FromSubset(Contribution(q, v)) in before;
      assert FromSubset(Contribution(q, v)) in before + [e];
    }
    if e.FromSubset? && e.output.Contribution? && e.output.proposer == q {
      assert FromSubset(Contribution(q, e.output.value)) in before + [e];
    }
  }

  /** Two nodes with the same contributions in an epoch get the same batch for it, also if
      one collects them as they come and the other at the end. */
  lemma SameBatch<C>(cfg: Config<C>, cfg': Config<C>, events: seq<Event>, events': seq<Event>)
    requires cfg.handler == Incremental || cfg.handler == AllAtEnd([])
    requires cfg'.handler == Incremental || cfg'.handler == AllAtEnd([])
    requires cfg.deserialize == cfg'.deserialize
    requires IsSubsetRun(events) && IsSubsetRun(events')
    requires BatchOf(cfg, events).Some? && BatchOf(cfg', events').Some?
    requires forall p, v :: FromSubset(Contribution(p, v)) in events <==> FromSubset(Contribution(p, v)) in events'
    ensures BatchOf(cfg, events) == BatchOf(cfg', events')
  {
    StrategiesAgree(events, cfg.deserialize);
    StrategiesAgree(events', cfg.deserialize);
    hide EpochStateRuns.Run;
    CollectsAll(events);
    CollectsAll(events');
    var a, b := EpochStateRuns.Run(Incremental, events), EpochStateRuns.Run(Incremental, events');
    assert forall p :: IsProposer(events, p) <==> IsProposer(events', p);
    assert a.accepted == b.accepted;
    forall p | p in a.accepted ensures p in a.decryption && p in b.decryption && a.decryption[p] == b.decryption[p] {
      var v :| FromSubset(Contribution(p, v)) in events;
    }
    SameDataSameBatch(a, b, cfg.deserialize);
  }

  lemma SameDataSameBatch<C>(a: EpochData, b: EpochData, deserialize: Bytes -> Option<C>)
    requires a.complete.Some? && a.complete == b.complete
    requires SameOn(a.decryption, b.decryption, a.complete.value)
    ensures TryOutputBatch(a, deserialize) == TryOutputBatch(b, deserialize)
  {
    var x, y := TryOutputBatch(a, deserialize), TryOutputBatch(b, deserialize);
    assert x.Some? == y.Some?;
    if x.Some? {
      assert x.value.contributions == y.value.contributions;
      assert x.value.faulty == y.value.faulty;
    }
  }

  /** In every epoch that both nodes have closed, their subsets have output the same. */
  ghost predicate SubsetsAgree<C>(n: Node<C>, m: Node<C>) {
    forall e, p, v :: 0 <= e < n.state.epoch && e < m.state.epoch ==>
      (FromSubset(Contribution(p, v)) in FedTo(n, e) <==> FromSubset(Contribution(p, v)) in FedTo(m, e))
  }

  ghost predicate SubsetsOk<C>(n: Node<C>) {
    forall e :: 0 <= e < n.state.epoch ==> IsSubsetRun(FedTo(n, e))
  }

  /** In any two runs whose subsets agree, the batches of one are a prefix of those of the
      other: the same batch for every epoch that both have closed. */
  lemma Agreement<C>(cfg: Config<C>, cfg': Config<C>, calls: seq<Call>, calls': seq<Call>)
    requires cfg.handler == Incremental || cfg.handler == AllAtEnd([])
    requires cfg'.handler == Incremental || cfg'.handler == AllAtEnd([])
    requires cfg.deserialize == cfg'.deserialize
    requires SubsetsOk(Run(cfg, calls)) && SubsetsOk(Run(cfg', calls'))
    requires SubsetsAgree(Run(cfg, calls), Run(cfg', calls'))
    ensures var a, b := Run(cfg, calls).batches, Run(cfg', calls').batches;
            a <= b || b <= a
  {
    hide Run, IsSubsetRun, BatchOf;
    RunInv(cfg, calls);
    RunInv(cfg', calls');
    var n, m := Run(cfg, calls), Run(cfg', calls');
    forall e | 0 <= e < |n.batches| && e < |m.batches| ensures n.batches[e] == m.batches[e] {
      SameBatch(cfg, cfg', FedTo(n, e), FedTo(m, e));
    }
  }
}
