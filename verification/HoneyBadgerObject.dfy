/** Honey Badger as it is implemented, by updating its fields in place. */
module HoneyBadgerObject {
  import opened Options
  import opened EpochStateSpec
  import opened EpochStateRuns
  import opened HoneyBadgerSpec

  datatype Fault = UnexpectedHbMessageEpoch

  datatype Reply<C> = Done(batches: seq<Batch<C>>, fault: Option<Fault>) | UnknownSender

  class HoneyBadger<C> {
    const cfg: Config<C>
    var epoch: nat
    var epochs: map<nat, EpochData>

    function View(): HoneyBadgerSpec.State
      reads this
    {
      HoneyBadgerSpec.State(epoch, epochs)
    }

    constructor (cfg: Config<C>)
      ensures this.cfg == cfg && View() == HoneyBadgerSpec.INITIAL
    {
      this.cfg := cfg;
      epoch, epochs := 0, map[];
    }

    /** A message of a validator for an epoch. The sub-protocols of the epoch answer with
        `events`, if they are called. */
    method HandleMessage(sender: nat, msgEpoch: nat, events: seq<Event>) returns (reply: Reply<C>)
      modifies this
      ensures reply.UnknownSender? <==> sender >= cfg.n
      ensures reply.UnknownSender? ==> View() == old(View())
      ensures reply.Done? ==>
                && (View(), reply.batches) == Feed(cfg, old(View()), msgEpoch, events)
                && (reply.fault.Some? <==> msgEpoch > old(epoch) + cfg.maxFuture)
    {
      hide HoneyBadgerSpec.TryOutputBatches;
      if sender >= cfg.n {
        return UnknownSender;
      }
      if msgEpoch > epoch + cfg.maxFuture {
        reply := Done([], Some(UnexpectedHbMessageEpoch));
      } else if msgEpoch < epoch {
        reply := Done([], None);
      } else {
        var data := HandleAll(EpochOf(cfg, View(), msgEpoch), events);
        epochs := epochs[msgEpoch := data];
        assert View() == old(View()).(epochs := old(epochs)[msgEpoch := data]);
        var batches := TryOutputBatches();
        reply := Done(batches, None);
      }
    }

    method TryOutputBatches() returns (batches: seq<Batch<C>>)
      modifies this
      ensures (View(), batches) == HoneyBadgerSpec.TryOutputBatches(cfg, old(View()))
    {
      batches := [];
      ghost var all := HoneyBadgerSpec.TryOutputBatches(cfg, View());
      assert [] + all.1 == all.1;
      while epoch in epochs && TryOutputBatch(epochs[epoch], cfg.deserialize).Some?
        invariant HoneyBadgerSpec.TryOutputBatches(cfg, View()).0 == all.0
        invariant batches + HoneyBadgerSpec.TryOutputBatches(cfg, View()).1 == all.1
        decreases |epochs|
      {
        hide TryOutputBatch;
        var batch := TryOutputBatch(epochs[epoch], cfg.deserialize).value;
        ghost var rest := HoneyBadgerSpec.TryOutputBatches(cfg, State(epoch + 1, epochs - {epoch}));
        assert batches + ([batch] + rest.1) == (batches + [batch]) + rest.1;
        batches := batches + [batch];
        RemoveOne(epochs, epoch);
        UpdateEpoch();
      }
      assert batches + [] == batches;
    }

    /** Moves on by one epoch. */
    method UpdateEpoch()
      modifies this
      ensures View() == HoneyBadgerSpec.State(old(epoch) + 1, old(epochs) - {old(epoch)})
    {
      epochs := epochs - {epoch};
      epoch := epoch + 1;
    }
  }
}
