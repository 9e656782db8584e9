/** Honey Badger without encryption, as functions: a window of open epochs, and a batch for
    one epoch after the other. What the sub-protocols of an epoch return is a parameter. */
module HoneyBadgerSpec {
  import opened Options
  import opened Merkle
  import opened EpochStateSpec
  import opened EpochStateRuns

  /** Validators are numbered below `n`. */
  datatype Config<!C> = Config(n: nat, maxFuture: nat, handler: Handler, deserialize: Bytes -> Option<C>)

  datatype State = State(epoch: nat, epochs: map<nat, EpochData>)

  const INITIAL := State(0, map[])

  function EpochOf<C>(cfg: Config<C>, s: State, epoch: nat): EpochData {
    if epoch in s.epochs then s.epochs[epoch] else EpochStateSpec.Initial(cfg.handler)
  }

  function HandleAll(d: EpochData, events: seq<Event>): EpochData
    decreases |events|
  {
    if events == [] then d else HandleAll(EpochStateRuns.Handle(d, events[0]), events[1..])
  }

  predicate IsReady<C>(cfg: Config<C>, s: State) {
    s.epoch in s.epochs && TryOutputBatch(s.epochs[s.epoch], cfg.deserialize).Some?
  }

  /** Outputs batches as long as the current epoch has one. */
  function TryOutputBatches<C>(cfg: Config<C>, s: State): (State, seq<Batch<C>>)
    decreases |s.epochs|
  {
    if !IsReady(cfg, s) then (s, [])
    else
      var batch := TryOutputBatch(s.epochs[s.epoch], cfg.deserialize).value;
      RemoveOne(s.epochs, s.epoch);
      var (s1, rest) := TryOutputBatches(cfg, State(s.epoch + 1, s.epochs - {s.epoch}));
      (s1, [batch] + rest)
  }

  lemma RemoveOne<T>(m: map<nat, T>, k: nat)
    requires k in m
    ensures |m - {k}| < |m|
  {
    assert (m - {k}).Keys == m.Keys - {k};
  }

  predicate IsOpen<C>(cfg: Config<C>, s: State, epoch: nat) {
    s.epoch <= epoch <= s.epoch + cfg.maxFuture
  }

  /** A message or an input for an epoch, after which its sub-protocols return `events`. */
  function Feed<C>(cfg: Config<C>, s: State, epoch: nat, events: seq<Event>): (State, seq<Batch<C>>) {
    if !IsOpen(cfg, s, epoch) then (s, [])
    else TryOutputBatches(cfg, s.(epochs := s.epochs[epoch := HandleAll(EpochOf(cfg, s, epoch), events)]))
  }
}
