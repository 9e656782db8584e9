/** All layers together: from the agreement and the broadcast for each proposer, over the
    subset of each epoch, to the batches of Honey Badger. */
module Consensus {
  import opened Options
  import opened Quorums
  import opened Merkle
  import opened SubsetSpec
  import opened EpochStateRuns
  import EpochStateSpec
  import HoneyBadgerSpec
  import HoneyBadgerRuns
  import ErasureCoding
  import HoneyBadgerBatches
  import SubsetRuns
  import BinaryAgreementSpec
  import BroadcastNetwork
  import BroadcastSpec
  import BroadcastSafety
  import BinaryAgreementNetwork
  import BinaryAgreementSafety

  /** A run of one of the agreements, with all its states on the way. */
  datatype AgreementRun = AgreementRun(
    sys: BinaryAgreementNetwork.System,
    actions: seq<BinaryAgreementNetwork.Action>,
    states: seq<BinaryAgreementNetwork.Network>,
    net: BinaryAgreementNetwork.Network)
  {
    ghost predicate Valid() {
      sys.Valid() && BinaryAgreementNetwork.IsRun(sys, actions, states, net)
    }

    /** Node `i` has decided at some time. */
    ghost predicate Decided(i: nat, t: nat, b: bool) {
      t < |states| && i in states[t] && states[t][i].state.decision == Some(b)
    }

    /** What the call returned by which node `i` took this action. It never fails. */
    ghost predicate Returned(i: nat, t: nat, ba: BaAnswer) {
      && t < |actions| && |states| == |actions| + 1
      && BinaryAgreementNetwork.IsStep(sys, states[t], actions[t], states[t + 1])
      && actions[t].to == i
      && ba == AnswerOf(BinaryAgreementNetwork.Act(sys, states[t], actions[t]))
    }

    /** What node `i` was answered to a message, or to no call at all. */
    ghost predicate Answers(i: nat, ba: BaAnswer) {
      ba == BaOk(None) || exists t: nat :: Returned(i, t, ba)
    }

    /** What node `i` was answered to its own vote, or to none. */
    ghost predicate AnswersVote(i: nat, ba: BaAnswer) {
      ba == BaOk(None) || exists t: nat :: Returned(i, t, ba) && actions[t].Input?
    }
  }

  function AnswerOf(r: BinaryAgreementSpec.Outcome): BaAnswer {
    BaOk(if r.step.output == [] then None else Some(r.step.output[0]))
  }

  /** A run of one of the broadcasts. */
  datatype BroadcastRun = BroadcastRun(
    sys: BroadcastNetwork.System,
    actions: seq<BroadcastNetwork.Action>,
    states: seq<BroadcastNetwork.Network>,
    net: BroadcastNetwork.Network)
  {
    ghost predicate Valid() {
      sys.Valid() && BroadcastNetwork.IsRun(sys, actions, states, net)
    }

    ghost predicate Output(i: nat, v: Bytes) {
      i in net && v in net[i].history.outputs
    }

    ghost predicate Returned(i: nat, t: nat, bc: BcAnswer) {
      && t < |actions| && |states| == |actions| + 1
      && BroadcastNetwork.IsStep(sys, states[t], actions[t], states[t + 1])
      && actions[t].to == i
      && bc == ReplyOf(BroadcastNetwork.Act(sys, states[t], actions[t]))
    }

    /** What node `i` was answered to an input or a message, or to no call at all. */
    ghost predicate Answers(i: nat, bc: BcAnswer) {
      bc == BcOk(None) || exists t: nat :: Returned(i, t, bc)
    }
  }

  function ReplyOf(r: BroadcastSpec.Reply): BcAnswer {
    match r
    case Done(_, step) => BcOk(if step.output == [] then None else Some(step.output[0]))
    case Failed(_, _) => BcErr
  }

  /** The sub-protocols of one epoch, by proposer. */
  datatype Layer = Layer(agreements: nat -> AgreementRun, broadcasts: nat -> BroadcastRun) {
    ghost predicate Valid() {
      forall p: nat :: agreements(p).Valid() && broadcasts(p).Valid()
    }
  }

  // ----- Answers are decisions and outputs -----

  lemma AnswerIsDecision(run: AgreementRun, i: nat, ba: BaAnswer)
    requires run.Answers(i, ba) && ba.decision.Some?
    ensures exists t: nat :: run.Decided(i, t, ba.decision.value)
  {
    hide BinaryAgreementNetwork.WellFormed, BinaryAgreementNetwork.Enabled;
    var t: nat :| run.Returned(i, t, ba);
    assert run.Decided(i, t + 1, ba.decision.value) by {
      ActDecides(run.sys, run.states[t], run.actions[t]);
    }
  }

  lemma ActDecides(
    sys: BinaryAgreementNetwork.System, net: BinaryAgreementNetwork.Network, a: BinaryAgreementNetwork.Action)
    requires BinaryAgreementNetwork.WellFormed(sys, net) && BinaryAgreementNetwork.Enabled(sys, net, a)
    ensures var r := BinaryAgreementNetwork.Act(sys, net, a);
            && BinaryAgreementSpec.OutputIsDecision(net[a.to].state, r)
            && a.to in BinaryAgreementNetwork.Apply(sys, net, a)
            && BinaryAgreementNetwork.Apply(sys, net, a)[a.to].state == r.state
  {
  }

  lemma ReplyIsOutput(run: BroadcastRun, i: nat, bc: BcAnswer)
    requires run.Valid() && run.Answers(i, bc) && bc.BcOk? && bc.value.Some?
    ensures run.Output(i, bc.value.value)
  {
    hide BroadcastRun.Returned, BroadcastNetwork.Initial, BroadcastNetwork.IsStep;
    var t: nat :| run.Returned(i, t, bc);
    ReturnedOutput(run, i, t, bc);
    OutputsStay(run, i, bc.value.value, t + 1, |run.actions|);
  }

  lemma ReturnedOutput(run: BroadcastRun, i: nat, t: nat, bc: BcAnswer)
    requires run.Returned(i, t, bc) && bc.BcOk? && bc.value.Some?
    ensures t < |run.actions| && |run.states| == |run.actions| + 1
    ensures i in run.states[t + 1] && bc.value.value in run.states[t + 1][i].history.outputs
  {
    hide BroadcastNetwork.WellFormed, BroadcastNetwork.Enabled, BroadcastNetwork.Apply, BroadcastNetwork.Act, ReplyOf;
    ActOutputs(run.sys, run.states[t], run.actions[t]);
  }

  lemma ActOutputs(sys: BroadcastNetwork.System, net: BroadcastNetwork.Network, a: BroadcastNetwork.Action)
    requires BroadcastNetwork.WellFormed(sys, net) && BroadcastNetwork.Enabled(net, a)
    ensures var next := BroadcastNetwork.Apply(sys, net, a);
            && next.Keys == net.Keys && a.to in next
            && (forall i, v :: i in net && v in net[i].history.outputs ==> v in next[i].history.outputs)
            && match ReplyOf(BroadcastNetwork.Act(sys, net, a))
               case BcOk(Some(v)) => v in next[a.to].history.outputs
               case _ => true
  {
    hide BroadcastNetwork.Act, BroadcastNetwork.System.Valid;
  }

  lemma {:induction false} OutputsStay(run: BroadcastRun, i: nat, v: Bytes, t: nat, u: nat)
    requires run.Valid() && t <= u <= |run.actions| && i in run.states[t] && v in run.states[t][i].history.outputs
    ensures i in run.states[u] && v in run.states[u][i].history.outputs
    decreases u - t
  {
    if t < u {
      hide BroadcastNetwork.Initial, BroadcastNetwork.System.Valid, BroadcastNetwork.Enabled, BroadcastNetwork.Apply;
      OutputsStay(run, i, v, t, u - 1);
      assert BroadcastNetwork.IsStep(run.sys, run.states[u - 1], run.actions[u - 1], run.states[u]);
      ActOutputs(run.sys, run.states[u - 1], run.actions[u - 1]);
    }
  }

  /** What the subset of node `i` has been answered is what node `i` decided and output there. */
  ghost predicate AnswersOf(h: SubsetRuns.History, i: nat, layer: Layer) {
    && (forall p :: p in h.decisions ==> exists t: nat :: layer.agreements(p).Decided(i, t, h.decisions[p]))
    && (forall p :: p in h.values ==> layer.broadcasts(p).Output(i, h.values[p]))
  }

  lemma DecisionsAgree(run: AgreementRun, i: nat, j: nat, t: nat, u: nat, a: bool, b: bool)
    requires run.Valid() && run.Decided(i, t, a) && run.Decided(j, u, b)
    ensures a == b
  {
    hide BinaryAgreementNetwork.IsStep, BinaryAgreementNetwork.Initial;
    if t <= u {
      BinaryAgreementSafety.Agreement(run.sys, run.actions, run.states, run.net, t, u, i, j);
    } else {
      BinaryAgreementSafety.Agreement(run.sys, run.actions, run.states, run.net, u, t, j, i);
    }
  }

  lemma OutputsAgree(run: BroadcastRun, i: nat, j: nat, v: Bytes, w: Bytes)
    requires run.Valid() && run.Output(i, v) && run.Output(j, w)
    ensures v == w
  {
    hide BroadcastNetwork.IsRun;
    assert BroadcastNetwork.Reaches(run.sys, run.actions, run.net);
    BroadcastSafety.Agreement(run.sys, run.actions, run.net, i, j, v, w);
  }

  lemma AnswersAgree(h: SubsetRuns.History, k: SubsetRuns.History, i: nat, j: nat, layer: Layer)
    requires layer.Valid() && AnswersOf(h, i, layer) && AnswersOf(k, j, layer)
    ensures SubsetRuns.SubProtocolsAgree(h, k)
  {
    hide AgreementRun.Valid, AgreementRun.Decided, BroadcastRun.Valid, BroadcastRun.Output;
    forall p | p in h.decisions && p in k.decisions ensures h.decisions[p] == k.decisions[p] {
      var t: nat :| layer.agreements(p).Decided(i, t, h.decisions[p]);
      var u: nat :| layer.agreements(p).Decided(j, u, k.decisions[p]);
      DecisionsAgree(layer.agreements(p), i, j, t, u, h.decisions[p], k.decisions[p]);
    }
    forall p | p in h.values && p in k.values ensures h.values[p] == k.values[p] {
      OutputsAgree(layer.broadcasts(p), i, j, h.values[p], k.values[p]);
    }
  }

  // ----- Subset -----

  /** The answers that a call gets are those of the runs of the sub-protocols. Calls to the
      agreement and the broadcast may fail, but those that only give our vote do not. */
  ghost predicate IsAnswered(c: Call, n: nat, i: nat, layer: Layer) {
    && |c.votes| == n
    && (forall q :: 0 <= q < n ==> layer.agreements(q).AnswersVote(i, c.votes[q]))
    && match c
       case ToBroadcast(p, bc, vote, _) =>
         layer.broadcasts(p).Answers(i, bc) && layer.agreements(p).AnswersVote(i, vote)
       case ToAgreement(p, ba, _) => ba.BaErr? || layer.agreements(p).Answers(i, ba)
  }

  lemma VoteSucceeds(run: AgreementRun, i: nat, ba: BaAnswer)
    requires run.AnswersVote(i, ba)
    ensures ba.BaOk? && run.Answers(i, ba)
  {
  }

  /** The subset of node `i`, on top of these sub-protocols. */
  datatype SubsetRun = SubsetRun(net: NetworkInfo, calls: seq<Call>) {
    ghost predicate Runs(i: nat, layer: Layer): (b: bool)
      ensures b ==> SubsetRuns.IsRun(net, calls)
    {
      AnsweredSucceeds(net, calls, i, layer);
      forall k :: 0 <= k < |calls| ==> IsAnswered(calls[k], net.n, i, layer)
    }

    ghost function Outputs(): seq<Output>
      requires SubsetRuns.IsRun(net, calls)
    {
      SubsetRuns.Run(net, calls).history.outputs
    }
  }

  lemma AnsweredSucceeds(net: NetworkInfo, calls: seq<Call>, i: nat, layer: Layer)
    ensures (forall k :: 0 <= k < |calls| ==> IsAnswered(calls[k], net.n, i, layer)) ==> SubsetRuns.IsRun(net, calls)
  {
    if forall k :: 0 <= k < |calls| ==> IsAnswered(calls[k], net.n, i, layer) {
      hide AgreementRun.Answers, AgreementRun.Returned, BroadcastRun.Answers;
      forall k | 0 <= k < |calls| ensures |calls[k].votes| == net.n && SubsetRuns.VotesSucceed(calls[k]) {
        assert IsAnswered(calls[k], net.n, i, layer);
      }
    }
  }

  lemma NoteAgreementAnswers(h: SubsetRuns.History, p: nat, st: ProposalState, ba: BaAnswer, i: nat, layer: Layer)
    requires AnswersOf(h, i, layer) && (ba.BaErr? || layer.agreements(p).Answers(i, ba))
    ensures AnswersOf(SubsetRuns.NoteAgreement(h, p, st, ba), i, layer)
  {
    hide AgreementRun.Answers, AgreementRun.Decided, BroadcastRun.Output;
    if ba.BaOk? && ba.decision.Some? {
      AnswerIsDecision(layer.agreements(p), i, ba);
    }
  }

  lemma NoteBroadcastAnswers(
    h: SubsetRuns.History, p: nat, st: ProposalState, bc: BcAnswer, vote: BaAnswer, i: nat, layer: Layer)
    requires AnswersOf(h, i, layer) && layer.Valid()
    requires layer.broadcasts(p).Answers(i, bc) && layer.agreements(p).AnswersVote(i, vote)
    ensures AnswersOf(SubsetRuns.NoteBroadcast(h, p, st, bc, vote), i, layer)
  {
    hide AgreementRun.Answers, AgreementRun.AnswersVote, AgreementRun.Valid, BroadcastRun.Answers, BroadcastRun.Valid;
    hide AnswersOf, SubsetRuns.NoteAgreement;
    VoteSucceeds(layer.agreements(p), i, vote);
    if bc.BcOk? && bc.value.Some? {
      assert layer.broadcasts(p).Valid();
      ReplyIsOutput(layer.broadcasts(p), i, bc);
      var h1 := h.(values := h.values[p := bc.value.value], inputs := h.inputs + {p});
      ValueAnswers(h, h1, p, bc.value.value, i, layer);
      if st.Ongoing? {
        NoteAgreementAnswers(h1, p, HasValue(bc.value.value), vote, i, layer);
      } else if st.Accepted? {
        InputsDoNotMatter(h1, h.(values := h.values[p := bc.value.value]), i, layer);
      }
    }
  }

  lemma ValueAnswers(h: SubsetRuns.History, k: SubsetRuns.History, p: nat, v: Bytes, i: nat, layer: Layer)
    requires AnswersOf(h, i, layer) && layer.broadcasts(p).Output(i, v)
    requires k.decisions == h.decisions && k.values == h.values[p := v]
    ensures AnswersOf(k, i, layer)
  {
    hide AgreementRun.Decided, BroadcastRun.Output;
  }

  lemma {:induction false} NoteVotesAnswers(
    h: SubsetRuns.History, proposals: seq<ProposalState>, votes: seq<BaAnswer>, p: nat, i: nat, layer: Layer)
    requires p <= |proposals| == |votes| && AnswersOf(h, i, layer)
    requires forall q :: 0 <= q < |votes| ==> layer.agreements(q).AnswersVote(i, votes[q])
    ensures AnswersOf(SubsetRuns.NoteVotes(h, proposals, votes, p), i, layer)
    decreases |proposals| - p
  {
    if p < |proposals| {
      hide AnswersOf, AgreementRun.Answers, AgreementRun.AnswersVote, SubsetRuns.NoteAgreement;
      var h1 := if SubsetRuns.NeedsAgreement(proposals[p]) then h.(inputs := h.inputs + {p}) else h;
      InputsDoNotMatter(h, h1, i, layer);
      VoteSucceeds(layer.agreements(p), i, votes[p]);
      NoteAgreementAnswers(h1, p, proposals[p], votes[p], i, layer);
      var next := proposals[p := HandleAgreement(proposals[p], votes[p]).state];
      NoteVotesAnswers(SubsetRuns.NoteVote(h, p, proposals[p], votes[p]), next, votes, p + 1, i, layer);
    }
  }

  lemma InputsDoNotMatter(h: SubsetRuns.History, k: SubsetRuns.History, i: nat, layer: Layer)
    requires AnswersOf(h, i, layer) && k.decisions == h.decisions && k.values == h.values
    ensures AnswersOf(k, i, layer)
  {
  }

  lemma NoteAnswers(h: SubsetRuns.History, s: State, c: Call, i: nat, layer: Layer)
    requires layer.Valid() && AnswersOf(h, i, layer) && IsCall(s, c) && IsAnswered(c, |s.proposals|, i, layer)
    ensures AnswersOf(SubsetRuns.Note(h, s, c), i, layer)
  {
    hide Layer.Valid, AnswersOf, AgreementRun.Answers, AgreementRun.AnswersVote, BroadcastRun.Answers;
    hide SubsetRuns.NoteAgreement, SubsetRuns.NoteBroadcast, SubsetRuns.NoteVotes;
    hide HandleBroadcast, HandleAgreement, SubsetSpec.Handle;
    if c.proposer < |s.proposals| {
      var st := s.proposals[c.proposer];
      var h1;
      match c {
        case ToBroadcast(p, bc, vote, _) =>
          NoteBroadcastAnswers(h, p, st, bc, vote, i, layer);
          h1 := SubsetRuns.NoteBroadcast(h, p, st, bc, vote);
        case ToAgreement(p, ba, _) =>
          NoteAgreementAnswers(h, p, st, ba, i, layer);
          h1 := SubsetRuns.NoteAgreement(h, p, st, ba);
      }
      var r := if c.ToBroadcast? then HandleBroadcast(st, c.bc, c.vote) else HandleAgreement(st, c.ba);
      var s1 := s.(proposals := s.proposals[c.proposer := r.state]);
      NoteVotesAnswers(h1, s1.proposals, c.votes, 0, i, layer);
      var h2 := if r.ok then SubsetRuns.NoteTry(h1, s1, c.votes) else h1;
      InputsDoNotMatter(h2, SubsetRuns.Note(h, s, c), i, layer);
    }
  }

  /** Whatever a subset has noted are decisions and outputs of the runs below it. */
  lemma {:induction false} RunAnswers(net: NetworkInfo, calls: seq<Call>, i: nat, layer: Layer)
    requires layer.Valid() && SubsetRun(net, calls).Runs(i, layer)
    ensures AnswersOf(SubsetRuns.Run(net, calls).history, i, layer)
  {
    if calls != [] {
      hide Layer.Valid, AnswersOf, IsAnswered, SubsetSpec.Handle, SubsetRuns.Note;
      var last := |calls| - 1;
      assert SubsetRun(net, calls[..last]).Runs(i, layer);
      RunAnswers(net, calls[..last], i, layer);
      var before := SubsetRuns.Run(net, calls[..last]);
      NoteAnswers(before.history, before.state, calls[last], i, layer);
    }
  }

  /** When the subsets of two correct nodes are done, they have output the same. */
  lemma SubsetAgreement(a: SubsetRun, b: SubsetRun, i: nat, j: nat, layer: Layer, p: nat, v: Bytes)
    requires layer.Valid() && a.Runs(i, layer) && b.Runs(j, layer) && a.net.n == b.net.n
    requires Done in a.Outputs() && Done in b.Outputs()
    ensures Contribution(p, v) in a.Outputs() <==> Contribution(p, v) in b.Outputs()
  {
    hide SubsetRuns.Run, SubsetRuns.IsRun, Layer.Valid, AnswersOf;
    RunAnswers(a.net, a.calls, i, layer);
    RunAnswers(b.net, b.calls, j, layer);
    AnswersAgree(SubsetRuns.Run(a.net, a.calls).history, SubsetRuns.Run(b.net, b.calls).history, i, j, layer);
    SubsetRuns.Agreement(a.net, b.net, a.calls, b.calls, p, v);
  }

  // ----- Honey Badger -----

  /** What the subset has output, among what was handled for an epoch. */
  function FromSubsetOf(events: seq<Event>): seq<Output> {
    if events == [] then []
    else
      var e := events[|events| - 1];
      FromSubsetOf(events[..|events| - 1]) + if e.FromSubset? then [e.output] else []
  }

  lemma {:induction false} FromSubsetIn(events: seq<Event>, o: Output)
    ensures o in FromSubsetOf(events) <==> FromSubset(o) in events
  {
    if events != [] {
      var last := |events| - 1;
      FromSubsetIn(events[..last], o);
      assert events == events[..last] + [events[last]];
    }
  }

  ghost predicate DoneOnlyLast(outputs: seq<Output>) {
    forall i :: 0 <= i < |outputs| && outputs[i] == Done ==> i == |outputs| - 1
  }

  lemma NotDoneEarlier(outputs: seq<Output>, o: Output)
    requires DoneOnlyLast(outputs + [o])
    ensures Done !in outputs
  {
    forall i | 0 <= i < |outputs| ensures outputs[i] != Done {
      assert (outputs + [o])[i] == outputs[i];
    }
  }

  lemma {:induction false} DoneStaysLast(events: seq<Event>)
    requires DoneOnlyLast(FromSubsetOf(events))
    ensures DoneIsLast(events)
  {
    if events != [] {
      var last := |events| - 1;
      var before := events[..last];
      var outputs, earlier := FromSubsetOf(events), FromSubsetOf(before);
      assert earlier == outputs[..|earlier|];
      assert DoneOnlyLast(earlier);
      DoneStaysLast(before);
      FromSubsetIn(before, Done);
      if events[last].FromSubset? {
        NotDoneEarlier(earlier, events[last].output);
      }
      forall i, j | 0 <= i < j < |events| && events[i] == FromSubset(Done) ensures events[j].Share? {
        assert events[i] == before[i];
        if j < last {
          assert events[j] == before[j];
        }
      }
    }
  }

  /** Node `i` has handled for this epoch what its subset has output. */
  ghost predicate FedBy(events: seq<Event>, run: SubsetRun, i: nat, layer: Layer) {
    run.Runs(i, layer) && FromSubsetOf(events) == run.Outputs()
  }

  lemma FedIsSubsetRun(events: seq<Event>, run: SubsetRun, i: nat, layer: Layer)
    requires FedBy(events, run, i, layer)
    ensures HoneyBadgerRuns.IsSubsetRun(events)
  {
    hide SubsetRuns.Run, AnswersOf, SubsetRuns.IsRun, DoneIsLast;
    SubsetRuns.DoneOnceAndLast(run.net, run.calls);
    DoneStaysLast(events);
    forall p, v, w | FromSubset(Contribution(p, v)) in events && FromSubset(Contribution(p, w)) in events
      ensures v == w
    {
      FromSubsetIn(events, Contribution(p, v));
      FromSubsetIn(events, Contribution(p, w));
      SubsetRuns.ContributionsAreAccepted(run.net, run.calls, p, v);
      SubsetRuns.ContributionsAreAccepted(run.net, run.calls, p, w);
    }
  }

  /** An epoch is closed only when its subset is done. */
  lemma ClosedIsDone<C>(cfg: HoneyBadgerSpec.Config<C>, events: seq<Event>)
    requires cfg.handler == EpochStateSpec.Incremental || cfg.handler == EpochStateSpec.AllAtEnd([])
    requires HoneyBadgerRuns.IsSubsetRun(events) && HoneyBadgerRuns.BatchOf(cfg, events).Some?
    ensures FromSubset(Done) in events
  {
    hide EpochStateRuns.Run;
    StrategiesAgree(events, cfg.deserialize);
    HoneyBadgerRuns.CollectsAll(events);
  }

  /** A node of Honey Badger whose closed epochs run these subsets. */
  ghost predicate RunsSubsets<C>(
    n: HoneyBadgerRuns.Node<C>, subsets: nat -> SubsetRun, i: nat, layers: nat -> Layer, size: nat)
  {
    forall e: nat :: e < n.state.epoch ==>
      FedBy(HoneyBadgerRuns.FedTo(n, e), subsets(e), i, layers(e)) && subsets(e).net.n == size
  }

  /** Agreement of Honey Badger, from the runs of all its sub-protocols: for every epoch that
      two correct nodes have closed, they have output the same batch. */
  lemma BatchesAgree<C>(
    cfg: HoneyBadgerSpec.Config<C>, cfg': HoneyBadgerSpec.Config<C>,
    calls: seq<HoneyBadgerRuns.Call>, calls': seq<HoneyBadgerRuns.Call>,
    subsets: nat -> SubsetRun, subsets': nat -> SubsetRun, i: nat, j: nat, layers: nat -> Layer, size: nat)
    requires cfg.handler == EpochStateSpec.Incremental || cfg.handler == EpochStateSpec.AllAtEnd([])
    requires cfg'.handler == EpochStateSpec.Incremental || cfg'.handler == EpochStateSpec.AllAtEnd([])
    requires cfg.deserialize == cfg'.deserialize
    requires forall e: nat :: layers(e).Valid()
    requires RunsSubsets(HoneyBadgerRuns.Run(cfg, calls), subsets, i, layers, size)
    requires RunsSubsets(HoneyBadgerRuns.Run(cfg', calls'), subsets', j, layers, size)
    ensures var a, b := HoneyBadgerRuns.Run(cfg, calls).batches, HoneyBadgerRuns.Run(cfg', calls').batches;
            a <= b || b <= a
  {
    hide HoneyBadgerRuns.Run, Layer.Valid, FedBy, HoneyBadgerRuns.IsSubsetRun, HoneyBadgerRuns.BatchOf;
    var n, m := HoneyBadgerRuns.Run(cfg, calls), HoneyBadgerRuns.Run(cfg', calls');
    HoneyBadgerRuns.RunInv(cfg, calls);
    HoneyBadgerRuns.RunInv(cfg', calls');
    forall e: nat | e < n.state.epoch ensures HoneyBadgerRuns.IsSubsetRun(HoneyBadgerRuns.FedTo(n, e)) {
      FedIsSubsetRun(HoneyBadgerRuns.FedTo(n, e), subsets(e), i, layers(e));
    }
    forall e: nat | e < m.state.epoch ensures HoneyBadgerRuns.IsSubsetRun(HoneyBadgerRuns.FedTo(m, e)) {
      FedIsSubsetRun(HoneyBadgerRuns.FedTo(m, e), subsets'(e), j, layers(e));
    }
    forall e: nat, p, v | e < n.state.epoch && e < m.state.epoch
      ensures FromSubset(Contribution(p, v)) in HoneyBadgerRuns.FedTo(n, e)
              <==> FromSubset(Contribution(p, v)) in HoneyBadgerRuns.FedTo(m, e)
    {
      ClosedIsDone(cfg, HoneyBadgerRuns.FedTo(n, e));
      ClosedIsDone(cfg', HoneyBadgerRuns.FedTo(m, e));
      FedAgree(
        HoneyBadgerRuns.FedTo(n, e), HoneyBadgerRuns.FedTo(m, e), subsets(e), subsets'(e), i, j, layers(e), p, v);
    }
    HoneyBadgerRuns.Agreement(cfg, cfg', calls, calls');
  }

  lemma FedAgree(
    events: seq<Event>, events': seq<Event>, a: SubsetRun, b: SubsetRun, i: nat, j: nat, layer: Layer, p: nat, v: Bytes)
    requires layer.Valid() && FedBy(events, a, i, layer) && FedBy(events', b, j, layer) && a.net.n == b.net.n
    requires FromSubset(Done) in events && FromSubset(Done) in events'
    ensures FromSubset(Contribution(p, v)) in events <==> FromSubset(Contribution(p, v)) in events'
  {
    hide SubsetRuns.Run, SubsetRuns.IsRun, Layer.Valid, AnswersOf;
    FromSubsetIn(events, Done);
    FromSubsetIn(events', Done);
    FromSubsetIn(events, Contribution(p, v));
    FromSubsetIn(events', Contribution(p, v));
    SubsetAgreement(a, b, i, j, layer, p, v);
  }

  // ----- What is in a batch -----

  /** The agreement on this proposer said yes at this node, and its broadcast delivered this value. */
  ghost predicate IsAgreed(layer: Layer, i: nat, p: nat, v: Bytes) {
    layer.broadcasts(p).Output(i, v) && exists t: nat :: layer.agreements(p).Decided(i, t, true)
  }

  /** Every contribution in a batch is agreed on, and so is what faulty proposers have sent; and there
      are enough of both. */
  ghost predicate IsAgreedBatch<C>(
    batch: EpochStateSpec.Batch<C>, layer: Layer, i: nat, size: nat, deserialize: Bytes -> Option<C>)
  {
    && (forall p :: p in batch.contributions ==>
          p < size && exists v :: IsAgreed(layer, i, p, v) && deserialize(v) == Some(batch.contributions[p]))
    && (forall p :: p in batch.faulty ==>
          p < size && exists v :: IsAgreed(layer, i, p, v) && deserialize(v).None?)
    && size > 0 && |batch.contributions.Keys + batch.faulty| >= size - MaxFaulty(size)
  }

  lemma ContributedIsAgreed(events: seq<Event>, run: SubsetRun, i: nat, layer: Layer, p: nat, v: Bytes)
    requires layer.Valid() && FedBy(events, run, i, layer) && HoneyBadgerBatches.Contributed(events, p, v)
    ensures p < run.net.n && IsAgreed(layer, i, p, v)
  {
    hide SubsetRuns.Run, SubsetRuns.IsRun, Layer.Valid, AgreementRun.Decided, BroadcastRun.Output;
    FromSubsetIn(events, Contribution(p, v));
    SubsetRuns.ContributionsAreAccepted(run.net, run.calls, p, v);
    RunAnswers(run.net, run.calls, i, layer);
  }

  lemma EnoughAgreed(events: seq<Event>, run: SubsetRun, i: nat, layer: Layer) returns (proposers: set<nat>)
    requires FedBy(events, run, i, layer) && FromSubset(Done) in events
    ensures |proposers| >= run.net.NumCorrect()
    ensures forall p :: p in proposers ==> exists v :: HoneyBadgerBatches.Contributed(events, p, v)
  {
    hide SubsetRuns.Run, SubsetRuns.IsRun, FromSubsetOf;
    FromSubsetIn(events, Done);
    proposers := SubsetRuns.EnoughContributions(run.net, run.calls);
    forall p | p in proposers ensures exists v :: HoneyBadgerBatches.Contributed(events, p, v) {
      var v := SubsetRuns.Run(run.net, run.calls).history.values[p];
      FromSubsetIn(events, Contribution(p, v));
      assert HoneyBadgerBatches.Contributed(events, p, v);
    }
  }

  /** What a batch of Honey Badger is, from the runs of all its sub-protocols: the contributions of at
      least `N - f` proposers, counting those that cannot be read; each is one that the agreement has
      accepted and the broadcast has delivered, and nobody else has any. */
  lemma BatchesAreAgreed<C>(
    cfg: HoneyBadgerSpec.Config<C>, calls: seq<HoneyBadgerRuns.Call>,
    subsets: nat -> SubsetRun, i: nat, layers: nat -> Layer, size: nat, e: nat)
    requires HoneyBadgerBatches.IsHandler(cfg.handler) && forall d: nat :: layers(d).Valid()
    requires RunsSubsets(HoneyBadgerRuns.Run(cfg, calls), subsets, i, layers, size)
    requires e < |HoneyBadgerRuns.Run(cfg, calls).batches|
    ensures IsAgreedBatch(HoneyBadgerRuns.Run(cfg, calls).batches[e], layers(e), i, size, cfg.deserialize)
  {
    hide HoneyBadgerRuns.Run, Layer.Valid, FedBy, HoneyBadgerRuns.IsSubsetRun, HoneyBadgerBatches.HasAll, IsAgreedBatch;
    var n := HoneyBadgerRuns.Run(cfg, calls);
    HoneyBadgerRuns.RunInv(cfg, calls);
    forall d: nat | d < n.state.epoch ensures HoneyBadgerRuns.IsSubsetRun(HoneyBadgerRuns.FedTo(n, d)) {
      FedIsSubsetRun(HoneyBadgerRuns.FedTo(n, d), subsets(d), i, layers(d));
    }
    HoneyBadgerBatches.BatchesMean(cfg, calls, e);
    OneBatchIsAgreed(n.batches[e], HoneyBadgerRuns.FedTo(n, e), subsets(e), i, layers(e), cfg.deserialize);
  }

  lemma OneBatchIsAgreed<C>(
    batch: EpochStateSpec.Batch<C>, events: seq<Event>, run: SubsetRun, i: nat, layer: Layer,
    deserialize: Bytes -> Option<C>)
    requires layer.Valid() && FedBy(events, run, i, layer) && FromSubset(Done) in events
    requires HoneyBadgerBatches.HasAll(batch, events, deserialize)
    ensures IsAgreedBatch(batch, layer, i, run.net.n, deserialize)
  {
    hide FedBy, Layer.Valid, IsAgreed;
    forall p | p in batch.contributions
      ensures p < run.net.n && exists v :: IsAgreed(layer, i, p, v) && deserialize(v) == Some(batch.contributions[p])
    {
      assert HoneyBadgerBatches.ContributedGood(events, p, deserialize);
      var v :| HoneyBadgerBatches.Contributed(events, p, v) && deserialize(v).Some?;
      ContributedIsAgreed(events, run, i, layer, p, v);
    }
    forall p | p in batch.faulty ensures p < run.net.n && exists v :: IsAgreed(layer, i, p, v) && deserialize(v).None? {
      assert HoneyBadgerBatches.ContributedBad(events, p, deserialize);
      var v :| HoneyBadgerBatches.Contributed(events, p, v) && deserialize(v).None?;
      ContributedIsAgreed(events, run, i, layer, p, v);
    }
    var proposers := EnoughAgreed(events, run, i, layer);
    forall p | p in proposers ensures p in batch.contributions.Keys + batch.faulty {
      var v :| HoneyBadgerBatches.Contributed(events, p, v);
      if deserialize(v).Some? {
        assert HoneyBadgerBatches.ContributedGood(events, p, deserialize);
      } else {
        assert HoneyBadgerBatches.ContributedBad(events, p, deserialize);
      }
    }
    SubsetSize(proposers, batch.contributions.Keys + batch.faulty);
  }

  /** The proposer of this broadcast is correct, and this is its input. */
  ghost predicate HasInput(run: BroadcastRun, input: Bytes) {
    run.sys.proposerId in run.net && run.net[run.sys.proposerId].history.input == Some(input)
  }

  /** The contribution of a correct proposer is in no batch but as it was proposed. Below 2^32 bytes,
      what a batch has of it is exactly its input. */
  lemma CorrectContribution<C>(
    cfg: HoneyBadgerSpec.Config<C>, calls: seq<HoneyBadgerRuns.Call>,
    subsets: nat -> SubsetRun, i: nat, layers: nat -> Layer, size: nat, e: nat, p: nat)
    requires HoneyBadgerBatches.IsHandler(cfg.handler) && forall d: nat :: layers(d).Valid()
    requires RunsSubsets(HoneyBadgerRuns.Run(cfg, calls), subsets, i, layers, size)
    requires e < |HoneyBadgerRuns.Run(cfg, calls).batches|
    requires layers(e).broadcasts(p).sys.proposerId in layers(e).broadcasts(p).net
    ensures var batch := HoneyBadgerRuns.Run(cfg, calls).batches[e];
            p in batch.contributions.Keys + batch.faulty ==>
              exists input :: HasInput(layers(e).broadcasts(p), input)
                && (|input| < ErasureCoding.TWO32 ==>
                      if p in batch.contributions then cfg.deserialize(input) == Some(batch.contributions[p])
                      else cfg.deserialize(input).None?)
  {
    hide HoneyBadgerRuns.Run, RunsSubsets, HoneyBadgerBatches.IsHandler, AgreementRun.Decided;
    BatchesAreAgreed(cfg, calls, subsets, i, layers, size, e);
    var batch, layer := HoneyBadgerRuns.Run(cfg, calls).batches[e], layers(e);
    hide Layer.Valid, BroadcastRun.Output, MaxFaulty;
    if p in batch.contributions.Keys + batch.faulty {
      var v :| IsAgreed(layer, i, p, v)
               && if p in batch.contributions then cfg.deserialize(v) == Some(batch.contributions[p])
                  else cfg.deserialize(v).None?;
      var input := AgreedInput(layer, i, p, v);
    }
  }

  lemma AgreedInput(layer: Layer, i: nat, p: nat, v: Bytes) returns (input: Bytes)
    requires layer.Valid() && IsAgreed(layer, i, p, v)
    requires layer.broadcasts(p).sys.proposerId in layer.broadcasts(p).net
    ensures HasInput(layer.broadcasts(p), input) && (|input| < ErasureCoding.TWO32 ==> v == input)
  {
    hide AgreementRun.Decided, BroadcastRun.Output;
    BroadcastOf(layer, p);
    hide Layer.Valid;
    input := DeliveredInput(layer.broadcasts(p), i, v);
  }

  lemma BroadcastOf(layer: Layer, p: nat)
    requires layer.Valid()
    ensures layer.broadcasts(p).Valid()
  {
  }

  lemma DeliveredInput(run: BroadcastRun, i: nat, v: Bytes) returns (input: Bytes)
    requires run.Valid() && run.Output(i, v) && run.sys.proposerId in run.net
    ensures HasInput(run, input) && (|input| < ErasureCoding.TWO32 ==> v == input)
  {
    hide BroadcastNetwork.IsRun, BroadcastNetwork.System.Valid, ErasureCoding.Truncated;
    assert BroadcastNetwork.Reaches(run.sys, run.actions, run.net);
    BroadcastSafety.Validity(run.sys, run.actions, run.net, i, v);
    input := run.net[run.sys.proposerId].history.input.value;
  }
}
