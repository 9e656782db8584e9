/** Dynamic Honey Badger below a sender queue: a batch that drops a participant is the last of
    its era. The sender queue relies on this when it drops messages with their recipient. */
module DhbParticipants {
  import opened Options
  import opened VotesSpec
  import opened DhbSpec
  import opened DhbReplication
  import SQ = SenderQueueSpec
  import Ledger = SenderQueueLedger
  import Runs = SenderQueueRuns

  /** The validators, and the candidates of a running key generation. */
  function Participants(s: State): set<nat> {
    s.net.keys.Keys + if s.keyGen.Some? then s.keyGen.value.keys.Keys else {}
  }

  /** The new set of participants that a batch reports to the sender queue. */
  function ParticipantChange(b: Batch): Option<set<nat>> {
    Told(b.change, b.net)
  }

  function Told(change: ChangeState, net: NetworkInfo): Option<set<nat>> {
    match change
    case InProgress(NodeChange(keys)) => Some(keys.Keys + net.keys.Keys)
    case Completed(NodeChange(keys)) => Some(keys.Keys)
    case _ => None
  }

  /** What the sender queue sees of a batch. */
  function QueueBatch(b: Batch): SQ.Batch {
    SQ.Batch(ParticipantChange(b), SQ.Epoch(b.era, if b.era <= b.epoch then b.epoch - b.era else 0))
  }

  function QueueBatches(bs: seq<Batch>): (r: seq<SQ.Batch>) {
    if bs == [] then [] else [QueueBatch(bs[0])] + QueueBatches(bs[1..])
  }

  /** A batch reports the participants if it says anything about them, and only with the end
      of its era do they change. The era it ends is followed by a later one. */
  lemma DropEndsEra(s: State, b: HbBatch)
    requires ProcessBatch(s, b).Output?
    ensures var p := ProcessBatch(s, b);
            && QueueBatch(p.batch).epoch == SQ.Epoch(s.era, b.epoch)
            && (ParticipantChange(p.batch).Some? ==> ParticipantChange(p.batch).value == Participants(p.state))
            && (if Participants(p.state) != Participants(s) then p.state.era == s.era + b.epoch + 1
                else p.state.era == s.era || p.state.era == s.era + b.epoch + 1)
            && (ParticipantChange(p.batch).None? ==> Participants(p.state) == Participants(s))
  {
    hide HandleContributions, ApplyChange, UserContributions, Told, Participants, SameSetup;
    ContributionsKeepSetup(s, b.contributions);
    var t := HandleContributions(s, b.contributions).state;
    SameParticipants(s, t);
    ChangeTells(t, b.epoch + s.era + 1);
  }

  lemma ChangeTells(s: State, nextEra: nat)
    requires ApplyChange(s, nextEra).error.None?
    ensures var c := ApplyChange(s, nextEra);
            var told := Told(c.change, c.state.net);
            && (told.Some? ==> told.value == Participants(c.state))
            && (if Participants(c.state) != Participants(s) then c.state.era == nextEra
                else c.state.era == s.era || c.state.era == nextEra)
            && (told.None? ==> Participants(c.state) == Participants(s))
  {
    ChangeMeans(s, nextEra);
    hide ApplyChange, IntoNetworkInfo, IsReady, HasWon;
  }

  lemma SameParticipants(s: State, t: State)
    requires SameSetup(s, t)
    ensures Participants(s) == Participants(t) && s.era == t.era
  {
  }

  /** What the sender queue has been told last. Before the first change it knows nobody. */
  ghost predicate IsKnown(current: set<nat>, s: State) {
    current == {} || current == Participants(s)
  }

  lemma KnownAfter(s: State, b: HbBatch, current: set<nat>, p: nat)
    requires ProcessBatch(s, b).Output? && IsKnown(current, s)
    ensures var r := ProcessBatch(s, b);
            && IsKnown(Ledger.ParticipantsAfter(current, QueueBatch(r.batch)), r.state)
            && QueueBatch(r.batch).epoch == SQ.Epoch(s.era, b.epoch)
            && s.era <= r.state.era
            && (Ledger.Drops(current, QueueBatch(r.batch), p) ==> s.era + b.epoch < r.state.era)
  {
    hide ProcessBatch, Participants;
    DropEndsEra(s, b);
  }

  /** What a call outputs without failing, batch by batch. */
  lemma OutputFirst(s: State, bs: seq<HbBatch>)
    requires bs != [] && ProcessOutput(s, bs).error.None?
    ensures var r := ProcessBatch(s, bs[0]);
            && r.Output? && ProcessOutput(r.state, bs[1..]).error.None?
            && QueueBatches(ProcessOutput(s, bs).batches)
               == [QueueBatch(r.batch)] + QueueBatches(ProcessOutput(r.state, bs[1..]).batches)
            && ProcessOutput(s, bs).state == ProcessOutput(r.state, bs[1..]).state
  {
    hide ProcessBatch, QueueBatch;
    var r := ProcessBatch(s, bs[0]);
    var rest := ProcessOutput(r.state, bs[1..]).batches;
    assert ([r.batch] + rest)[1..] == rest;
  }

  /** In every run without failures: when a batch has dropped a node, the run has left the
      era of that batch. */
  lemma {:induction false} DropsEndEras(s: State, bs: seq<HbBatch>, current: set<nat>, p: nat)
    requires IsKnown(current, s) && ProcessOutput(s, bs).error.None?
    ensures var o := ProcessOutput(s, bs);
            && s.era <= o.state.era
            && forall l :: l in Ledger.DropEpochs(current, QueueBatches(o.batches), p) ==>
                             s.era <= l.era && l.era + l.hb < o.state.era
    decreases |bs|
  {
    if bs != [] {
      hide ProcessBatch, ProcessOutput, QueueBatch, QueueBatches, IsKnown, Ledger.Drops, Ledger.ParticipantsAfter;
      OutputFirst(s, bs);
      var r := ProcessBatch(s, bs[0]);
      KnownAfter(s, bs[0], current, p);
      DropsEndEras(r.state, bs[1..], Ledger.ParticipantsAfter(current, QueueBatch(r.batch)), p);
      FirstDrop(current, QueueBatch(r.batch), QueueBatches(ProcessOutput(r.state, bs[1..]).batches), p);
    }
  }

  lemma FirstDrop(current: set<nat>, b: SQ.Batch, bs: seq<SQ.Batch>, p: nat)
    ensures Ledger.DropEpochs(current, [b] + bs, p)
            == (if Ledger.Drops(current, b, p) then {b.epoch} else {})
               + Ledger.DropEpochs(Ledger.ParticipantsAfter(current, b), bs, p)
  {
    hide Ledger.Drops, Ledger.ParticipantsAfter;
    assert ([b] + bs)[1..] == bs;
  }

  /** The next epoch of the inner Honey Badger, when these batches are still to come: it is
      none of those of this era that are output later. */
  ghost predicate IsNext(s: State, bs: seq<HbBatch>, hb: nat)
    decreases |bs|
  {
    bs != [] && ProcessBatch(s, bs[0]).Output? ==>
      && hb <= bs[0].epoch
      && (ProcessBatch(s, bs[0]).state.era == s.era ==> IsNext(ProcessBatch(s, bs[0]).state, bs[1..], hb))
  }

  lemma {:induction false} NextIsEpoch(s: State, bs: seq<HbBatch>, current: set<nat>, p: nat, hb: nat)
    requires IsKnown(current, s) && ProcessOutput(s, bs).error.None? && IsNext(s, bs, hb)
    ensures var o := ProcessOutput(s, bs);
            Runs.IsEpoch(Ledger.DropEpochs(current, QueueBatches(o.batches), p), SQ.Epoch(s.era, hb))
    decreases |bs|
  {
    if bs != [] {
      hide ProcessBatch, ProcessOutput, QueueBatch, QueueBatches, IsKnown, Ledger.Drops, Ledger.ParticipantsAfter;
      OutputFirst(s, bs);
      var r := ProcessBatch(s, bs[0]);
      KnownAfter(s, bs[0], current, p);
      var next := Ledger.ParticipantsAfter(current, QueueBatch(r.batch));
      DropsEndEras(r.state, bs[1..], next, p);
      if r.state.era == s.era {
        NextIsEpoch(r.state, bs[1..], next, p, hb);
      }
      FirstDrop(current, QueueBatch(r.batch), QueueBatches(ProcessOutput(r.state, bs[1..]).batches), p);
    }
  }

  lemma {:induction false} SameQueueBatches(bs: seq<Batch>, cs: seq<Batch>)
    requires PairwiseEq(bs, cs)
    ensures QueueBatches(bs) == QueueBatches(cs)
    decreases |bs|
  {
    if bs != [] {
      assert PublicEq(bs[0], cs[0]);
      SameQueueBatches(bs[1..], cs[1..]);
    }
  }

  /** Two nodes process the same batches without failing. When one of them has output all of
      them, and the other is in any earlier or equal state and announces the next epoch, then
      that epoch is not beyond any that has dropped a node: as the sender queue of the first
      expects of the second. The first has left the eras of these epochs behind. */
  lemma AnnouncementsAreEpochs(
    a: State, b: State, bs: seq<HbBatch>, cs: seq<HbBatch>, current: set<nat>, p: nat, hb: nat)
    requires SameState(a, b) && IsKnown(current, a)
    requires ProcessOutput(a, bs + cs).error.None? && IsNext(ProcessOutput(b, bs).state, cs, hb)
    ensures var drops := Ledger.DropEpochs(current, QueueBatches(ProcessOutput(a, bs + cs).batches), p);
            && Runs.IsEpoch(drops, SQ.Epoch(ProcessOutput(b, bs).state.era, hb))
            && forall l, h :: l in drops ==> SQ.Lt(l, SQ.Epoch(ProcessOutput(a, bs + cs).state.era, h))
  {
    hide ProcessOutput, QueueBatches, SameState, PairwiseEq, Runs.IsEpoch;
    OutputSame(a, b, bs + cs);
    SameQueueBatches(ProcessOutput(a, bs + cs).batches, ProcessOutput(b, bs + cs).batches);
    KnownSame(a, b, current);
    DropsEndEras(a, bs + cs, current, p);
    PrefixIsEpoch(b, bs, cs, current, p, hb);
  }

  lemma KnownSame(a: State, b: State, current: set<nat>)
    requires SameState(a, b) && IsKnown(current, a)
    ensures IsKnown(current, b)
  {
  }

  lemma {:induction false} PrefixIsEpoch(
    s: State, bs: seq<HbBatch>, cs: seq<HbBatch>, current: set<nat>, p: nat, hb: nat)
    requires IsKnown(current, s) && ProcessOutput(s, bs + cs).error.None?
    requires IsNext(ProcessOutput(s, bs).state, cs, hb)
    ensures Runs.IsEpoch(Ledger.DropEpochs(current, QueueBatches(ProcessOutput(s, bs + cs).batches), p),
                         SQ.Epoch(ProcessOutput(s, bs).state.era, hb))
    decreases |bs|
  {
    hide ProcessBatch, QueueBatch, QueueBatches, IsKnown, Ledger.Drops, Ledger.ParticipantsAfter;
    if bs == [] {
      assert bs + cs == cs;
      NextIsEpoch(s, cs, current, p, hb);
    } else {
      assert (bs + cs)[1..] == bs[1..] + cs;
      OutputFirst(s, bs + cs);
      var r := ProcessBatch(s, bs[0]);
      KnownAfter(s, bs[0], current, p);
      PrefixIsEpoch(r.state, bs[1..], cs, Ledger.ParticipantsAfter(current, QueueBatch(r.batch)), p, hb);
      FirstDrop(current, QueueBatch(r.batch), QueueBatches(ProcessOutput(r.state, bs[1..] + cs).batches), p);
      ErasGrow(r.state, bs[1..], cs);
    }
  }

  lemma ErasGrow(s: State, bs: seq<HbBatch>, cs: seq<HbBatch>)
    requires ProcessOutput(s, bs + cs).error.None?
    ensures s.era <= ProcessOutput(s, bs).state.era
  {
    hide ProcessOutput, Participants;
    PrefixFine(s, bs, cs);
    DropsEndEras(s, bs, {}, 0);
  }

  lemma {:induction false} PrefixFine(s: State, bs: seq<HbBatch>, cs: seq<HbBatch>)
    requires ProcessOutput(s, bs + cs).error.None?
    ensures ProcessOutput(s, bs).error.None?
    decreases |bs|
  {
    if bs != [] {
      hide ProcessBatch;
      assert (bs + cs)[1..] == bs[1..] + cs;
      PrefixFine(ProcessBatch(s, bs[0]).state, bs[1..], cs);
    }
  }
}
