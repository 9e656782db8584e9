/** The subset protocol outputs no contribution twice. */
module SubsetOutputs {
  import opened Options
  import opened SubsetSpec

  /** At most one contribution for each proposer, and only for proposals that are complete and
      accepted. */
  ghost predicate EachOnce(proposals: seq<ProposalState>, outputs: seq<Output>) {
    && (forall o :: o in outputs && o.Contribution? ==>
          o.proposer < |proposals| && proposals[o.proposer] == Complete(true))
    && (forall i, j :: 0 <= i < j < |outputs| && outputs[i].Contribution? && outputs[j].Contribution? ==>
          outputs[i].proposer != outputs[j].proposer)
  }

  /** What one proposal can become. */
  predicate Moves(before: ProposalState, r: Reply) {
    && (r.output.Some? ==> before != Complete(true) && r.state == Complete(true))
    && (before == Complete(true) ==> r.state == before)
  }

  lemma OneMove(proposals: seq<ProposalState>, outputs: seq<Output>, p: nat, r: Reply)
    requires p < |proposals| && EachOnce(proposals, outputs) && Moves(proposals[p], r)
    ensures EachOnce(proposals[p := r.state], outputs + Outputs(p, r.output))
    ensures EachOnce(proposals[p := r.state], outputs)
  {
  }

  lemma {:induction false} VotesOnce(
    proposals: seq<ProposalState>, outputs: seq<Output>, votes: seq<BaAnswer>, p: nat)
    requires p <= |proposals| == |votes| && EachOnce(proposals, outputs)
    ensures var v := VoteFalse(proposals, votes, p);
            EachOnce(v.proposals, outputs + v.outputs) && EachOnce(v.proposals, outputs)
    decreases |proposals| - p
  {
    hide EachOnce;
    if p == |proposals| {
      assert outputs + [] == outputs;
    } else {
      var r := HandleAgreement(proposals[p], votes[p]);
      OneMove(proposals, outputs, p, r);
      assert outputs + [] == outputs;
      if r.ok {
        var next := proposals[p := r.state];
        VotesOnce(next, outputs + Outputs(p, r.output), votes, p + 1);
        VotesOnce(next, outputs, votes, p + 1);
        var rest := VoteFalse(next, votes, p + 1);
        assert outputs + Outputs(p, r.output) + rest.outputs == outputs + (Outputs(p, r.output) + rest.outputs);
      }
    }
  }

  lemma DoneOnce(proposals: seq<ProposalState>, outputs: seq<Output>)
    requires EachOnce(proposals, outputs)
    ensures EachOnce(proposals, outputs + [Done])
  {
  }

  lemma TryOnce(s: State, outputs: seq<Output>, votes: seq<BaAnswer>)
    requires |s.proposals| == |votes| && EachOnce(s.proposals, outputs)
    ensures var t := TryOutput(s, votes);
            EachOnce(t.state.proposals, outputs + t.outputs) && EachOnce(t.state.proposals, outputs)
  {
    hide EachOnce, VoteFalse;
    assert outputs + [] == outputs;
    VotesOnce(s.proposals, outputs, votes, 0);
    var v := VoteFalse(s.proposals, votes, 0);
    DoneOnce(v.proposals, outputs + v.outputs);
    assert outputs + v.outputs + [Done] == outputs + (v.outputs + [Done]);
    DoneOnce(s.proposals, outputs);
    var none: seq<Output> := [];
    assert none + [Done] == [Done];
  }

  /** Every call keeps it, also one that fails. */
  lemma HandleOnce(s: State, outputs: seq<Output>, c: Call)
    requires IsCall(s, c) && EachOnce(s.proposals, outputs)
    ensures EachOnce(Handle(s, c).state.proposals, outputs + Handle(s, c).outputs)
  {
    hide EachOnce, TryOutput;
    assert outputs + [] == outputs;
    if c.proposer < |s.proposals| {
      var st := s.proposals[c.proposer];
      var r := if c.ToBroadcast? then HandleBroadcast(st, c.bc, c.vote) else HandleAgreement(st, c.ba);
      OneMove(s.proposals, outputs, c.proposer, r);
      var s1 := s.(proposals := s.proposals[c.proposer := r.state]);
      if r.ok {
        var sent := Outputs(c.proposer, r.output);
        TryOnce(s1, outputs + sent, c.votes);
        TryOnce(s1, outputs, c.votes);
        assert outputs + sent + TryOutput(s1, c.votes).outputs == outputs + (sent + TryOutput(s1, c.votes).outputs);
      }
    }
  }
}
