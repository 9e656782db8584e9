/** What is in the batches of Honey Badger, and when there is one. */
module HoneyBadgerBatches {
  import opened Options
  import opened Merkle
  import opened SubsetSpec
  import opened EpochStateSpec
  import opened EpochStateRuns
  import opened HoneyBadgerSpec
  import opened HoneyBadgerRuns

  predicate IsHandler(handler: Handler) {
    handler == Incremental || handler == AllAtEnd([])
  }

  predicate Contributed(events: seq<Event>, p: nat, v: Bytes) {
    FromSubset(Contribution(p, v)) in events
  }

  ghost predicate ContributedGood<C>(events: seq<Event>, p: nat, deserialize: Bytes -> Option<C>) {
    exists v :: Contributed(events, p, v) && deserialize(v).Some?
  }

  ghost predicate ContributedBad<C>(events: seq<Event>, p: nat, deserialize: Bytes -> Option<C>) {
    exists v :: Contributed(events, p, v) && deserialize(v).None?
  }

  /** A batch has each contribution of the subset that can be deserialized, and nothing else. The
      proposers of all others are faulty. */
  ghost predicate HasAll<C>(batch: Batch<C>, events: seq<Event>, deserialize: Bytes -> Option<C>) {
    && (forall p :: p in batch.contributions <==> ContributedGood(events, p, deserialize))
    && (forall p, v :: Contributed(events, p, v) && deserialize(v).Some? ==>
          p in batch.contributions && deserialize(v) == Some(batch.contributions[p]))
    && (forall p :: p in batch.faulty <==> ContributedBad(events, p, deserialize))
  }

  /** In every epoch, whatever the order of events and however the subset is handled: there is a
      batch exactly when the subset is done, and it has all contributions. */
  lemma BatchMeans<C>(cfg: Config<C>, events: seq<Event>)
    requires IsHandler(cfg.handler) && IsSubsetRun(events)
    ensures BatchOf(cfg, events).Some? <==> FromSubset(Done) in events
    ensures BatchOf(cfg, events).Some? ==> HasAll(BatchOf(cfg, events).value, events, cfg.deserialize)
  {
    hide EpochStateRuns.Run, TryOutputBatch, HasAll, HasCollected;
    StrategiesAgree(events, cfg.deserialize);
    CollectsAll(events);
    CollectedMeans(EpochStateRuns.Run(Incremental, events), events, cfg.deserialize);
  }

  lemma CollectedMeans<C>(s: EpochData, events: seq<Event>, deserialize: Bytes -> Option<C>)
    requires HasCollected(s, events) && IsSubsetRun(events)
    ensures TryOutputBatch(s, deserialize).Some? <==> FromSubset(Done) in events
    ensures TryOutputBatch(s, deserialize).Some? ==> HasAll(TryOutputBatch(s, deserialize).value, events, deserialize)
  {
    forall p | p in s.accepted
      ensures p in s.decryption && s.decryption[p].Decrypted? && Contributed(events, p, s.decryption[p].plaintext)
    {
      assert IsProposer(events, p);
      var v :| FromSubset(Contribution(p, v)) in events;
    }
    if FromSubset(Done) in events {
      var batch := TryOutputBatch(s, deserialize).value;
      forall p ensures p in batch.contributions <==> ContributedGood(events, p, deserialize) {
        if v :| Contributed(events, p, v) && deserialize(v).Some? {
          assert IsProposer(events, p);
        }
      }
      forall p ensures p in batch.faulty <==> ContributedBad(events, p, deserialize) {
        if v :| Contributed(events, p, v) && deserialize(v).None? {
          assert IsProposer(events, p);
        }
      }
      forall p, v | Contributed(events, p, v) && deserialize(v).Some?
        ensures p in batch.contributions && deserialize(v) == Some(batch.contributions[p])
      {
        assert IsProposer(events, p);
      }
    }
  }

  /** The subset of the epoch is done. */
  predicate IsDone<C>(n: Node<C>, e: nat) {
    FromSubset(Done) in FedTo(n, e)
  }

  ghost predicate SubsetsRun<C>(n: Node<C>) {
    forall e: nat :: IsSubsetRun(FedTo(n, e))
  }

  /** In every run: the batch of each closed epoch has what its subset has output, and nothing
      else. */
  lemma BatchesMean<C>(cfg: Config<C>, calls: seq<HoneyBadgerRuns.Call>, e: nat)
    requires IsHandler(cfg.handler) && SubsetsOk(HoneyBadgerRuns.Run(cfg, calls))
    requires e < |HoneyBadgerRuns.Run(cfg, calls).batches|
    ensures var n := HoneyBadgerRuns.Run(cfg, calls);
            HasAll(n.batches[e], FedTo(n, e), cfg.deserialize) && IsDone(n, e)
  {
    hide HoneyBadgerRuns.Run, IsSubsetRun, BatchOf, HasAll;
    RunInv(cfg, calls);
    BatchMeans(cfg, FedTo(HoneyBadgerRuns.Run(cfg, calls), e));
  }

  lemma {:induction false} NothingIsReady<C>(cfg: Config<C>, calls: seq<HoneyBadgerRuns.Call>)
    ensures !IsReady(cfg, HoneyBadgerRuns.Run(cfg, calls).state)
    decreases |calls|
  {
    if calls != [] {
      hide NodeInv, TryOutputBatch, TryOutputBatches, HandleAll;
      var before, c := HoneyBadgerRuns.Run(cfg, calls[..|calls| - 1]), calls[|calls| - 1];
      NothingIsReady(cfg, calls[..|calls| - 1]);
      RunInv(cfg, calls[..|calls| - 1]);
      if IsOpen(cfg, before.state, c.epoch) {
        FeedKeeps(cfg, before, c);
        OutputKeeps(cfg, FeedOnly(cfg, before, c));
      }
    }
  }

  /** In every run: an epoch is closed exactly when its subset and those of all epochs before it
      are done. No call leaves a batch for later. */
  lemma ClosedIff<C>(cfg: Config<C>, calls: seq<HoneyBadgerRuns.Call>, e: nat)
    requires IsHandler(cfg.handler) && SubsetsRun(HoneyBadgerRuns.Run(cfg, calls))
    ensures var n := HoneyBadgerRuns.Run(cfg, calls);
            e < |n.batches| <==> forall d: nat :: d <= e ==> IsDone(n, d)
  {
    hide HoneyBadgerRuns.Run, IsSubsetRun, BatchOf, FedTo;
    var n := HoneyBadgerRuns.Run(cfg, calls);
    RunInv(cfg, calls);
    NothingIsReady(cfg, calls);
    forall d: nat ensures BatchOf(cfg, FedTo(n, d)).Some? <==> IsDone(n, d) {
      BatchMeans(cfg, FedTo(n, d));
    }
    CurrentIsOpen(cfg, n);
  }

  lemma CurrentIsOpen<C>(cfg: Config<C>, n: Node<C>)
    requires NodeInv(cfg, n) && !IsReady(cfg, n.state)
    ensures BatchOf(cfg, FedTo(n, n.state.epoch)).None?
  {
    hide FedTo, TryOutputBatch;
    if n.state.epoch !in n.state.epochs {
      NothingFed(cfg.handler);
      NoBatchYet(cfg);
    }
  }

  lemma NoBatchYet<C>(cfg: Config<C>)
    ensures TryOutputBatch(EpochStateSpec.Initial(cfg.handler), cfg.deserialize).None?
  {
  }

  /** Exactly the messages for the current epoch and a fixed number of epochs after it are handled. */
  lemma HandledIff<C>(cfg: Config<C>, n: Node<C>, c: HoneyBadgerRuns.Call)
    ensures FedTo(HoneyBadgerRuns.Step(cfg, n, c), c.epoch)
            == if n.state.epoch <= c.epoch && c.epoch - n.state.epoch <= cfg.maxFuture
               then FedTo(n, c.epoch) + c.events else FedTo(n, c.epoch)
    ensures forall e :: e != c.epoch ==> FedTo(HoneyBadgerRuns.Step(cfg, n, c), e) == FedTo(n, e)
  {
    hide Feed;
  }
}
