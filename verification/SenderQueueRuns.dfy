/** When peers leave, in whole runs: how long they are served, and what is lost with them. */
module SenderQueueRuns {
  import opened Options
  import opened Orders
  import opened SenderQueueSpec
  import opened SenderQueueLedger
  import opened SenderQueueMembers

  // ----- Runs -----

  /** The epochs of all batches of a run that drop `p`. */
  function DropsIn(s: State, calls: seq<Call>, p: nat): set<Epoch> {
    if calls == [] then {}
    else
      var last := |calls| - 1;
      DropsIn(s, calls[..last], p) + DropsOf(Run(s, calls[..last]), calls[last], p)
  }

  function DropsOf(s: State, c: Call, p: nat): set<Epoch> {
    if s.isRemoved || c.Announced? then {} else DropEpochs(s.participants, Output(c.result), p)
  }

  /** The algorithm never goes back, and it is past the batches that it outputs to drop `p`. */
  ghost predicate GoesForward(s: State, c: Call, p: nat) {
    !s.isRemoved && c.AlgoCall? ==>
      && Le(s.algoEpoch, c.result.epoch)
      && forall l :: l in DropsOf(s, c, p) ==> Lt(l, c.result.epoch)
  }

  /** These epochs are the last of their eras, and this one is not beyond them. */
  ghost predicate IsEpoch(lasts: set<Epoch>, e: Epoch) {
    forall l :: l in lasts && l.era == e.era ==> Le(e, l)
  }

  /** `p` announces only epochs that exist. */
  ghost predicate AnnouncesEpochs(c: Call, p: nat, lasts: set<Epoch>) {
    c.Announced? && c.sender == p ==> IsEpoch(lasts, c.epoch)
  }

  /** A run of a new sender queue in which a batch that drops `p` ends its era. */
  ghost predicate IsOrderly(s: State, calls: seq<Call>, p: nat, lasts: set<Epoch>) {
    && s.outgoing == map[] && p !in s.lastEpochs
    && (forall i {:trigger calls[i]} :: 0 <= i < |calls| ==>
          && FromOthers(s, calls[i])
          && GoesForward(Run(s, calls[..i]), calls[i], p)
          && AnnouncesEpochs(calls[i], p, lasts))
  }

  lemma OrderlyPrefix(s: State, calls: seq<Call>, p: nat, lasts: set<Epoch>)
    requires calls != [] && IsOrderly(s, calls, p, lasts)
    ensures IsOrderly(s, calls[..|calls| - 1], p, lasts)
  {
    hide GoesForward, AnnouncesEpochs, FromOthers;
    var front := calls[..|calls| - 1];
    forall i | 0 <= i < |front|
      ensures FromOthers(s, front[i]) && GoesForward(Run(s, front[..i]), front[i], p)
              && AnnouncesEpochs(front[i], p, lasts)
    {
      assert front[..i] == calls[..i] && front[i] == calls[i];
    }
  }

  // ----- Who is scheduled for removal -----

  /** If `p` is scheduled for removal, a batch has dropped it, we are past that, and it is
      still tracked, since it has not yet said that it is past that, too. */
  ghost predicate ScheduleOk(s: State, p: nat, drops: set<Epoch>) {
    p in s.lastEpochs ==>
      && s.lastEpochs[p] in drops && Lt(s.lastEpochs[p], s.algoEpoch)
      && (p != s.ourId ==> p in s.peerEpochs && Le(s.peerEpochs[p], s.lastEpochs[p]))
  }

  lemma {:induction false} AddCandidatesSchedule(s: State, ids: seq<nat>, at: Epoch, p: nat, drops: set<Epoch>)
    requires ScheduleOk(s, p, drops)
    ensures ScheduleOk(AddCandidates(s, ids, at), p, drops)
    decreases |ids|
  {
    if ids != [] {
      hide Lt;
      AddCandidatesSchedule(AddCandidate(s, ids[0], at), ids[1..], at, p, drops);
    }
  }

  lemma {:induction false} RemoveAllSchedule(s: State, ids: seq<nat>, at: Epoch, p: nat, drops: set<Epoch>)
    requires ScheduleOk(s, p, drops) && (p in ids ==> at in drops && Lt(at, s.algoEpoch))
    ensures ScheduleOk(RemoveAll(s, ids, at), p, drops)
    ensures RemoveAll(s, ids, at).algoEpoch == s.algoEpoch
    decreases |ids|
  {
    if ids != [] {
      hide Lt;
      RemoveAllSchedule(RemoveAfter(s, ids[0], at), ids[1..], at, p, drops);
    }
  }

  lemma HandleBatchSchedule(s: State, b: Batch, p: nat, drops: set<Epoch>)
    requires ScheduleOk(s, p, drops)
    requires Drops(s.participants, b, p) ==> b.epoch in drops && Lt(b.epoch, s.algoEpoch)
    ensures ScheduleOk(HandleBatch(s, b), p, drops)
    ensures HandleBatch(s, b).algoEpoch == s.algoEpoch
    ensures HandleBatch(s, b).participants == ParticipantsAfter(s.participants, b)
  {
    if b.participants.Some? {
      hide AddCandidates, RemoveAll, Lt;
      var next := b.participants.value;
      var s1 := AddCandidates(s, Ascending(next), b.epoch);
      AddCandidatesSchedule(s, Ascending(next), b.epoch, p, drops);
      AddCandidatesMembers(s, Ascending(next), b.epoch, p);
      RemoveAllSchedule(s1, Ascending(s1.participants - next), b.epoch, p, drops);
    }
  }

  lemma {:induction false} HandleBatchesSchedule(s: State, bs: seq<Batch>, p: nat, drops: set<Epoch>)
    requires ScheduleOk(s, p, drops) && DropEpochs(s.participants, bs, p) <= drops
    requires forall l :: l in DropEpochs(s.participants, bs, p) ==> Lt(l, s.algoEpoch)
    ensures ScheduleOk(HandleBatches(s, bs), p, drops)
    decreases |bs|
  {
    if bs != [] {
      hide HandleBatch, Lt, ScheduleOk, Drops, ParticipantsAfter;
      HandleBatchSchedule(s, bs[0], p, drops);
      HandleBatchesSchedule(HandleBatch(s, bs[0]), bs[1..], p, drops);
    }
  }

  lemma StepSchedule(s: State, c: Call, p: nat, drops: set<Epoch>)
    requires ScheduleOk(s, p, drops) && GoesForward(s, c, p) && FromOthers(s, c) && DropsOf(s, c, p) <= drops
    ensures ScheduleOk(Step(s, c).0, p, drops)
  {
    if !s.isRemoved {
      match c {
        case AlgoCall(r) =>
          hide HandleBatches, Announcement, Defer, PushAll;
          var s1 := s.(algoEpoch := r.epoch);
          assert ScheduleOk(s1, p, drops);
          if r.step.Some? {
            HandleBatchesSchedule(s1, r.step.value.output, p, drops);
          }
        case Announced(sender, epoch) =>
          hide Flush;
      }
    }
  }

  lemma {:induction false} RunSchedule(s: State, calls: seq<Call>, p: nat, lasts: set<Epoch>)
    requires IsOrderly(s, calls, p, lasts)
    ensures QueueInv(Run(s, calls)) && Run(s, calls).ourId == s.ourId
    ensures ScheduleOk(Run(s, calls), p, DropsIn(s, calls, p))
  {
    hide GoesForward, AnnouncesEpochs, Step, DropsOf, ScheduleOk;
    Conservation(s, calls, p, KeyGen(0, 0));
    if calls == [] {
      NothingScheduled(s, p);
    } else {
      var last := |calls| - 1;
      var s1, drops := Run(s, calls[..last]), DropsIn(s, calls[..last], p);
      OrderlyPrefix(s, calls, p, lasts);
      RunSchedule(s, calls[..last], p, lasts);
      assert FromOthers(s, calls[last]) && GoesForward(s1, calls[last], p);
      MoreDrops(s1, p, drops, DropsIn(s, calls, p));
      StepSchedule(s1, calls[last], p, DropsIn(s, calls, p));
    }
  }

  lemma NothingScheduled(s: State, p: nat)
    requires p !in s.lastEpochs
    ensures ScheduleOk(s, p, {})
  {
  }

  lemma MoreDrops(s: State, p: nat, drops: set<Epoch>, more: set<Epoch>)
    requires ScheduleOk(s, p, drops) && drops <= more
    ensures ScheduleOk(s, p, more)
  {
  }

  // ----- Results -----

  /** In every such run: what is dropped with a peer is for epochs after its last one, which a
      batch of the run has set, or the peer in the epoch that it announces would discard it as late.
      This is so for messages of every kind. We have left the last epoch behind. */
  lemma DroppedForGood(s: State, calls: seq<Call>, c: Call, p: nat, m: Message) returns (last: Epoch)
    requires IsOrderly(s, calls + [c], p, DropsIn(s, calls + [c], p))
    requires Entries(Run(s, calls), c, p, m).dropped > 0
    ensures last in DropsIn(s, calls + [c], p)
    ensures Lt(last, if c.AlgoCall? then c.result.epoch else Run(s, calls).algoEpoch)
    ensures Lt(last, FirstEpoch(m)) || (c.Announced? && c.sender == p && Receive(m, c.epoch, s.maxFuture).TooLate?)
  {
    hide Run, Step, Entries, GoesForward;
    var all := calls + [c];
    assert all[..|all| - 1] == calls && all[|calls|] == c;
    var lasts := DropsIn(s, all, p);
    OrderlyPrefix(s, all, p, lasts);
    RunSchedule(s, calls, p, lasts);
    assert FromOthers(s, all[|calls|]);
    var s1 := Run(s, calls);
    last := DropReason(s1, c, p, m);
    NothingRemoved(s1, c, p, m);
    if c.Announced? {
      assert AnnouncesEpochs(all[|calls|], p, lasts);
      ErasEnd(m, last, s1.peerEpochs[p], c.epoch, s.maxFuture);
    }
  }

  lemma NothingRemoved(s: State, c: Call, p: nat, m: Message)
    requires Entries(s, c, p, m).dropped > 0
    ensures !s.isRemoved
  {
    hide AfterOutput, Step;
  }

  /** Between the recorded epoch and one of a later era, all messages of the era are late. */
  lemma ErasEnd(m: Message, last: Epoch, recorded: Epoch, announced: Epoch, maxFuture: nat)
    requires Le(recorded, last) && Lt(recorded, FirstEpoch(m))
    requires Lt(last, announced) || Lt(last, recorded)
    requires last.era == announced.era ==> Le(announced, last)
    ensures Lt(last, FirstEpoch(m)) || Receive(m, announced, maxFuture).TooLate?
  {
  }

  /** In every such run: a peer that is scheduled for removal is tracked, and recorded with no
      epoch after its last one. It is removed with its queue exactly when it announces one,
      and until then it stays and is sent what is due. Nobody else is touched. */
  lemma LeavesExactly(s: State, calls: seq<Call>, p: nat, epoch: Epoch, q: nat)
    requires IsOrderly(s, calls, p, DropsIn(s, calls, p)) && p != s.ourId
    requires p in Run(s, calls).lastEpochs && !Run(s, calls).isRemoved
    ensures var s1 := Run(s, calls);
            && s1.lastEpochs[p] in DropsIn(s, calls, p)
            && p in s1.peerEpochs && Le(s1.peerEpochs[p], s1.lastEpochs[p])
    ensures var s1 := Run(s, calls);
            var (t, sends) := Step(s1, Announced(p, epoch));
            && (if Lt(s1.lastEpochs[p], epoch) then
                  p !in t.peerEpochs && p !in t.outgoing && p !in t.lastEpochs && sends == []
                else
                  && p in t.peerEpochs && t.lastEpochs == s1.lastEpochs
                  && (t, sends) == ProcessNewEpoch(Noted(s1, p, epoch), p, epoch))
            && (q != p ==> SamePeer(s1, t, q))
  {
    hide Run, DropsIn, Flush, IsOrderly, QueueInv;
    RunSchedule(s, calls, p, DropsIn(s, calls, p));
    var s1 := Run(s, calls);
    if Lt(s1.lastEpochs[p], epoch) {
      LeavesWhenDone(s1, p, epoch);
    } else {
      StaysUntilDone(s1, p, epoch);
    }
  }
}
