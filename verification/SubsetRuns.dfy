/** Whole runs of the subset protocol in one node, and agreement between two of them. */
module SubsetRuns {
  import opened Options
  import opened Quorums
  import opened Merkle
  import opened SubsetSpec
  import SubsetOutputs

  /** What the sub-protocols have answered, which agreements got an input from us, and what
      we have output. */
  datatype History = History(
    decisions: map<nat, bool>,
    values: map<nat, Bytes>,
    inputs: set<nat>,
    outputs: seq<Output>)

  predicate NeedsAgreement(st: ProposalState) {
    st.Ongoing? || st.HasValue?
  }

  function NoteAgreement(h: History, p: nat, st: ProposalState, ba: BaAnswer): History {
    if NeedsAgreement(st) && ba.BaOk? && ba.decision.Some? then
      h.(decisions := h.decisions[p := ba.decision.value])
    else h
  }

  function NoteBroadcast(h: History, p: nat, st: ProposalState, bc: BcAnswer, vote: BaAnswer): History {
    if bc.BcErr? || bc.value.None? then h
    else if st.Ongoing? then
      NoteAgreement(h.(values := h.values[p := bc.value.value], inputs := h.inputs + {p}), p,
                    HasValue(bc.value.value), vote)
    else if st.Accepted? then h.(values := h.values[p := bc.value.value])
    else h
  }

  function NoteVote(h: History, p: nat, st: ProposalState, ba: BaAnswer): History {
    NoteAgreement(if NeedsAgreement(st) then h.(inputs := h.inputs + {p}) else h, p, st, ba)
  }

  function NoteVotes(h: History, proposals: seq<ProposalState>, votes: seq<BaAnswer>, p: nat): History
    requires p <= |proposals| == |votes|
    decreases |proposals| - p
  {
    if p == |proposals| then h
    else
      var r := HandleAgreement(proposals[p], votes[p]);
      var h1 := NoteVote(h, p, proposals[p], votes[p]);
      if r.ok then NoteVotes(h1, proposals[p := r.state], votes, p + 1) else h1
  }

  function NoteTry(h: History, s: State, votes: seq<BaAnswer>): History
    requires |s.proposals| == |votes|
  {
    if !s.decided && |AcceptedSet(s.proposals)| == s.net.NumCorrect() then NoteVotes(h, s.proposals, votes, 0) else h
  }

  /** The history after a call. What is output is what the call returned. */
  function Note(h: History, s: State, c: Call): History
    requires IsCall(s, c)
  {
    if c.proposer >= |s.proposals| then h
    else
      var st := s.proposals[c.proposer];
      var r := if c.ToBroadcast? then HandleBroadcast(st, c.bc, c.vote) else HandleAgreement(st, c.ba);
      var h1 := if c.ToBroadcast? then NoteBroadcast(h, c.proposer, st, c.bc, c.vote)
                else NoteAgreement(h, c.proposer, st, c.ba);
      var s1 := s.(proposals := s.proposals[c.proposer := r.state]);
      var h2 := if r.ok then NoteTry(h1, s1, c.votes) else h1;
      h2.(outputs := h.outputs + Handle(s, c).outputs)
  }

  datatype Node = Node(state: State, history: History)

  function Start(net: NetworkInfo): Node {
    Node(Initial(net), History(map[], map[], {}, []))
  }

  /** Giving an agreement our vote never fails. A message may. */
  predicate VotesSucceed(c: Call) {
    && (c.ToBroadcast? ==> c.vote.BaOk?)
    && (forall i :: 0 <= i < |c.votes| ==> c.votes[i].BaOk?)
  }

  ghost predicate IsRun(net: NetworkInfo, calls: seq<Call>) {
    forall i :: 0 <= i < |calls| ==> |calls[i].votes| == net.n && VotesSucceed(calls[i])
  }

  function Run(net: NetworkInfo, calls: seq<Call>): (r: Node)
    requires IsRun(net, calls)
    ensures r.state.net == net && |r.state.proposals| == net.n
  {
    if calls == [] then Start(net)
    else
      var last := |calls| - 1;
      var before := Run(net, calls[..last]);
      HandleShape(before.state, calls[last]);
      Node(Handle(before.state, calls[last]).state, Note(before.history, before.state, calls[last]))
  }

  lemma {:induction false} VoteFalseShape(proposals: seq<ProposalState>, votes: seq<BaAnswer>, p: nat)
    requires p <= |proposals| == |votes|
    ensures |VoteFalse(proposals, votes, p).proposals| == |proposals|
    decreases |proposals| - p
  {
    if p < |proposals| {
      VoteFalseShape(proposals[p := HandleAgreement(proposals[p], votes[p]).state], votes, p + 1);
    }
  }

  lemma HandleShape(s: State, c: Call)
    requires IsCall(s, c)
    ensures Handle(s, c).state.net == s.net && |Handle(s, c).state.proposals| == |s.proposals|
  {
    if c.proposer < |s.proposals| {
      var st := s.proposals[c.proposer];
      var r := if c.ToBroadcast? then HandleBroadcast(st, c.bc, c.vote) else HandleAgreement(st, c.ba);
      VoteFalseShape(s.proposals[c.proposer := r.state], c.votes, 0);
    }
  }

  // ----- The invariant -----

  /** A proposal state says which answers there have been. */
  predicate ProposalOk(h: History, p: nat, st: ProposalState) {
    match st
    case Ongoing => p !in h.decisions && p !in h.values
    case HasValue(v) => p !in h.decisions && p in h.values && h.values[p] == v && p in h.inputs
    case Accepted => p in h.decisions && h.decisions[p] && p !in h.values
    case Complete(true) => p in h.decisions && h.decisions[p] && p in h.values
    case Complete(false) => p in h.decisions && !h.decisions[p]
  }

  ghost predicate ProposalsOk(h: History, proposals: seq<ProposalState>) {
    forall p :: 0 <= p < |proposals| ==> ProposalOk(h, p, proposals[p])
  }

  predicate IsOutput(h: History, proposals: seq<ProposalState>, p: nat, v: Bytes) {
    p < |proposals| && proposals[p] == Complete(true) && p in h.values && h.values[p] == v
  }

  /** The contributions that were output are those of the completed accepted proposals. */
  ghost predicate ContributionsOk(h: History, proposals: seq<ProposalState>, outputs: seq<Output>) {
    && (forall p, v :: Contribution(p, v) in outputs <==> IsOutput(h, proposals, p, v))
    && (forall i, j :: 0 <= i < j < |outputs| ==> outputs[i] != outputs[j])
    && Done !in outputs
  }

  ghost predicate PhaseInv(h: History, proposals: seq<ProposalState>, outputs: seq<Output>) {
    ProposalsOk(h, proposals) && ContributionsOk(h, proposals, outputs)
  }

  /** The two histories say the same about all proposers but `p`. */
  ghost predicate OnlyAbout(h: History, h': History, p: nat) {
    && h.inputs <= h'.inputs
    && (forall q :: q != p ==> (q in h.decisions <==> q in h'.decisions) && (q in h.values <==> q in h'.values))
    && (forall q :: q != p && q in h.decisions ==> h.decisions[q] == h'.decisions[q])
    && (forall q :: q != p && q in h.values ==> h.values[q] == h'.values[q])
  }

  /** How one proposal may move: its value is output when it is completed and accepted. */
  ghost predicate Moves(h: History, h': History, p: nat, st: ProposalState, r: Reply) {
    && OnlyAbout(h, h', p)
    && ProposalOk(h', p, r.state)
    && (st.IsAccepted() ==> r.state.IsAccepted())
    && (st.Complete? ==> r.state == st && h'.values == h.values && h'.decisions == h.decisions)
    && (r.output.Some? <==> st != Complete(true) && r.state == Complete(true))
    && (r.output.Some? ==> h'.values[p] == r.output.value)
  }

  lemma AgreementMoves(h: History, p: nat, st: ProposalState, ba: BaAnswer)
    requires ProposalOk(h, p, st)
    ensures Moves(h, NoteAgreement(h, p, st, ba), p, st, HandleAgreement(st, ba))
  {
  }

  lemma VoteMoves(h: History, p: nat, st: ProposalState, ba: BaAnswer)
    requires ProposalOk(h, p, st)
    ensures Moves(h, NoteVote(h, p, st, ba), p, st, HandleAgreement(st, ba))
    ensures ba.BaOk? ==> HandleAgreement(st, ba).ok
  {
  }

  lemma BroadcastMoves(h: History, p: nat, st: ProposalState, bc: BcAnswer, vote: BaAnswer)
    requires ProposalOk(h, p, st) && vote.BaOk?
    ensures Moves(h, NoteBroadcast(h, p, st, bc, vote), p, st, HandleBroadcast(st, bc, vote))
  {
  }

  lemma MoveKeepsProposals(h: History, h': History, proposals: seq<ProposalState>, p: nat, r: Reply)
    requires ProposalsOk(h, proposals) && p < |proposals| && Moves(h, h', p, proposals[p], r)
    ensures ProposalsOk(h', proposals[p := r.state])
    ensures |AcceptedSet(proposals[p := r.state])| <= |AcceptedSet(proposals)| + 1
    ensures AcceptedSet(proposals) <= AcceptedSet(proposals[p := r.state])
  {
    var next := proposals[p := r.state];
    assert AcceptedSet(next) <= AcceptedSet(proposals) + {p};
    SubsetSize(AcceptedSet(next), AcceptedSet(proposals) + {p});
    forall q | 0 <= q < |next| ensures ProposalOk(h', q, next[q]) {
      assert q != p ==> ProposalOk(h, q, proposals[q]);
    }
  }

  lemma MoveKeepsOutputs(h: History, h': History, proposals: seq<ProposalState>, outputs: seq<Output>, p: nat, r: Reply)
    requires PhaseInv(h, proposals, outputs) && p < |proposals| && Moves(h, h', p, proposals[p], r)
    ensures ContributionsOk(h', proposals[p := r.state], outputs + Outputs(p, r.output))
  {
    hide ProposalsOk;
    var next, out := proposals[p := r.state], outputs + Outputs(p, r.output);
    forall q, v ensures Contribution(q, v) in out <==> IsOutput(h', next, q, v) {
      assert Contribution(q, v) in outputs <==> IsOutput(h, proposals, q, v);
      assert Contribution(q, v) in out <==> Contribution(q, v) in outputs || Contribution(q, v) in Outputs(p, r.output);
    }
    if r.output.Some? {
      assert Contribution(p, r.output.value) !in outputs by {
        assert !IsOutput(h, proposals, p, r.output.value);
      }
    }
  }

  /** The votes from `p` on are one vote and the votes after it. */
  lemma UnrollVotes(h: History, proposals: seq<ProposalState>, votes: seq<BaAnswer>, p: nat)
    requires p < |proposals| == |votes| && votes[p].BaOk?
    ensures var r, h1 := HandleAgreement(proposals[p], votes[p]), NoteVote(h, p, proposals[p], votes[p]);
            var v, rest := VoteFalse(proposals, votes, p), VoteFalse(proposals[p := r.state], votes, p + 1);
            && v == Votes(rest.proposals, Outputs(p, r.output) + rest.outputs, rest.ok)
            && NoteVotes(h, proposals, votes, p) == NoteVotes(h1, proposals[p := r.state], votes, p + 1)
  {
    hide NoteVote;
    assert HandleAgreement(proposals[p], votes[p]).ok;
  }

  lemma {:induction false} VotesKeepPhase(
    h: History, proposals: seq<ProposalState>, outputs: seq<Output>, votes: seq<BaAnswer>, p: nat)
    requires p <= |proposals| == |votes| && PhaseInv(h, proposals, outputs)
    requires forall i :: 0 <= i < |votes| ==> votes[i].BaOk?
    ensures var v, h' := VoteFalse(proposals, votes, p), NoteVotes(h, proposals, votes, p);
            && v.ok && |v.proposals| == |proposals|
            && PhaseInv(h', v.proposals, outputs + v.outputs)
            && AcceptedSet(proposals) <= AcceptedSet(v.proposals)
    decreases |proposals| - p
  {
    hide PhaseInv, AcceptedSet, HandleAgreement, NoteVote;
    if p == |proposals| {
      assert outputs + [] == outputs;
    } else {
      UnrollVotes(h, proposals, votes, p);
      hide VoteFalse, NoteVotes;
      var r := HandleAgreement(proposals[p], votes[p]);
      var h1, next := NoteVote(h, p, proposals[p], votes[p]), proposals[p := r.state];
      VoteKeepsPhase(h, proposals, outputs, votes[p], p);
      VotesKeepPhase(h1, next, outputs + Outputs(p, r.output), votes, p + 1);
      var rest := VoteFalse(next, votes, p + 1);
      assert (outputs + Outputs(p, r.output)) + rest.outputs == outputs + (Outputs(p, r.output) + rest.outputs);
    }
  }

  lemma VoteKeepsPhase(h: History, proposals: seq<ProposalState>, outputs: seq<Output>, vote: BaAnswer, p: nat)
    requires p < |proposals| && PhaseInv(h, proposals, outputs) && vote.BaOk?
    ensures var r := HandleAgreement(proposals[p], vote);
            && r.ok
            && PhaseInv(NoteVote(h, p, proposals[p], vote), proposals[p := r.state], outputs + Outputs(p, r.output))
            && AcceptedSet(proposals) <= AcceptedSet(proposals[p := r.state])
  {
    hide ProposalOk, ContributionsOk, Moves, AcceptedSet, HandleAgreement, NoteVote;
    var h1, r := NoteVote(h, p, proposals[p], vote), HandleAgreement(proposals[p], vote);
    assert ProposalOk(h, p, proposals[p]);
    VoteMoves(h, p, proposals[p], vote);
    MoveKeepsProposals(h, h1, proposals, p, r);
    MoveKeepsOutputs(h, h1, proposals, outputs, p, r);
  }

  lemma VoteGivesInput(h: History, p: nat, st: ProposalState, ba: BaAnswer)
    ensures NeedsAgreement(st) ==> p in NoteVote(h, p, st, ba).inputs
    ensures h.inputs <= NoteVote(h, p, st, ba).inputs
    ensures HandleAgreement(st, ba).state.Ongoing? ==> st.Ongoing?
    ensures ba.BaOk? ==> HandleAgreement(st, ba).ok
  {
  }

  lemma {:induction false} VotesGiveInputs(h: History, proposals: seq<ProposalState>, votes: seq<BaAnswer>, p: nat)
    requires p <= |proposals| == |votes|
    requires forall i :: 0 <= i < |votes| ==> votes[i].BaOk?
    ensures var v, h' := VoteFalse(proposals, votes, p), NoteVotes(h, proposals, votes, p);
            && |v.proposals| == |proposals|
            && h.inputs <= h'.inputs
            && (forall q :: p <= q < |proposals| && NeedsAgreement(proposals[q]) ==> q in h'.inputs)
            && (forall q :: 0 <= q < |proposals| && v.proposals[q].Ongoing? ==> proposals[q].Ongoing?)
    decreases |proposals| - p
  {
    if p < |proposals| {
      hide HandleAgreement, NoteVote;
      var r := HandleAgreement(proposals[p], votes[p]);
      VoteGivesInput(h, p, proposals[p], votes[p]);
      VotesGiveInputs(NoteVote(h, p, proposals[p], votes[p]), proposals[p := r.state], votes, p + 1);
    }
  }

  /** An agreement has an input from us if we have its value, and also once `N - f`
      proposals are accepted. */
  ghost predicate InputsOk(h: History, s: State) {
    |AcceptedSet(s.proposals)| >= s.net.NumCorrect() ==>
      forall p :: 0 <= p < |s.proposals| && s.proposals[p].Ongoing? ==> p in h.inputs
  }

  /** `Done` comes when all is complete and enough is accepted, and nothing comes after it. */
  ghost predicate DoneOk(h: History, s: State) {
    && (s.decided <==> |AcceptedSet(s.proposals)| >= s.net.NumCorrect() && AllComplete(s.proposals))
    && (if s.decided then
          h.outputs != [] && h.outputs[|h.outputs| - 1] == Done && PhaseInv(h, s.proposals, h.outputs[..|h.outputs| - 1])
        else PhaseInv(h, s.proposals, h.outputs))
  }

  ghost predicate NodeInv(n: Node) {
    ProposalsOk(n.history, n.state.proposals) && InputsOk(n.history, n.state) && DoneOk(n.history, n.state)
  }

  lemma StartInv(net: NetworkInfo)
    ensures NodeInv(Start(net))
  {
    assert AcceptedSet(Start(net).state.proposals) == {};
    assert Start(net).state.proposals[0] == Ongoing;
  }

  /** The call to one instance, before the conditions are checked. */
  lemma MainMoves(h: History, s: State, c: Call) returns (r: Reply, h1: History)
    requires IsCall(s, c) && VotesSucceed(c) && ProposalsOk(h, s.proposals) && c.proposer < |s.proposals|
    ensures var st := s.proposals[c.proposer];
            && r == (if c.ToBroadcast? then HandleBroadcast(st, c.bc, c.vote) else HandleAgreement(st, c.ba))
            && h1 == (if c.ToBroadcast? then NoteBroadcast(h, c.proposer, st, c.bc, c.vote)
                      else NoteAgreement(h, c.proposer, st, c.ba))
            && Moves(h, h1, c.proposer, st, r)
            && (!r.ok ==> r.state == st && r.output == None && h1 == h)
            && h1.outputs == h.outputs
            && (r.state.Ongoing? ==> st.Ongoing?)
  {
    hide Moves, ProposalOk;
    var st := s.proposals[c.proposer];
    if c.ToBroadcast? {
      r, h1 := HandleBroadcast(st, c.bc, c.vote), NoteBroadcast(h, c.proposer, st, c.bc, c.vote);
      BroadcastMoves(h, c.proposer, st, c.bc, c.vote);
    } else {
      r, h1 := HandleAgreement(st, c.ba), NoteAgreement(h, c.proposer, st, c.ba);
      AgreementMoves(h, c.proposer, st, c.ba);
    }
  }

  /** After `Done`, calls change nothing and output nothing. */
  lemma DecidedStays(h: History, s: State, c: Call)
    requires IsCall(s, c) && s.decided && AllComplete(s.proposals)
    ensures Handle(s, c).state == s && Handle(s, c).outputs == [] && Note(h, s, c) == h
  {
    hide AcceptedSet;
    assert h.outputs + [] == h.outputs;
    if c.proposer < |s.proposals| {
      assert s.proposals[c.proposer].Complete?;
      assert s.proposals[c.proposer := s.proposals[c.proposer]] == s.proposals;
    }
  }

  lemma TryOk(h: History, s: State, votes: seq<BaAnswer>, outputs: seq<Output>)
    requires |s.proposals| == |votes| && !s.decided && PhaseInv(h, s.proposals, outputs)
    requires forall i :: 0 <= i < |votes| ==> votes[i].BaOk?
    requires |AcceptedSet(s.proposals)| > s.net.NumCorrect() ==>
               forall p :: 0 <= p < |s.proposals| && s.proposals[p].Ongoing? ==> p in h.inputs
    ensures var t := TryOutput(s, votes);
            && t.ok && t.state.net == s.net
            && NodeInv(Node(t.state, NoteTry(h, s, votes).(outputs := outputs + t.outputs)))
  {
    hide ProposalOk, ContributionsOk, AcceptedSet;
    var count := |AcceptedSet(s.proposals)|;
    if count == s.net.NumCorrect() {
      VotesKeepPhase(h, s.proposals, outputs, votes, 0);
      VotesGiveInputs(h, s.proposals, votes, 0);
    }
    var h2 := NoteTry(h, s, votes);
    var v := if count == s.net.NumCorrect() then VoteFalse(s.proposals, votes, 0) else Votes(s.proposals, [], true);
    var out := outputs + v.outputs;
    assert outputs + [] == outputs;
    SubsetSize(AcceptedSet(s.proposals), AcceptedSet(v.proposals));
    assert PhaseInv(h2, v.proposals, out);
    assert outputs + (v.outputs + [Done]) == out + [Done];
    assert (out + [Done])[..|out + [Done]| - 1] == out;
    var t := TryOutput(s, votes);
    SamePhase(h2, v.proposals, out, h2.(outputs := outputs + t.outputs));
  }

  lemma SamePhase(h: History, proposals: seq<ProposalState>, outputs: seq<Output>, h': History)
    requires PhaseInv(h, proposals, outputs)
    requires h'.decisions == h.decisions && h'.values == h.values && h'.inputs == h.inputs
    ensures PhaseInv(h', proposals, outputs) && ProposalsOk(h', proposals)
  {
    forall p | 0 <= p < |proposals| ensures ProposalOk(h', p, proposals[p]) {
      assert ProposalOk(h, p, proposals[p]);
    }
    forall p, v ensures Contribution(p, v) in outputs <==> IsOutput(h', proposals, p, v) {
      assert Contribution(p, v) in outputs <==> IsOutput(h, proposals, p, v);
    }
  }

  lemma StepInv(n: Node, c: Call)
    requires NodeInv(n) && IsCall(n.state, c) && VotesSucceed(c)
    ensures NodeInv(Node(Handle(n.state, c).state, Note(n.history, n.state, c)))
  {
    hide ProposalOk, ContributionsOk, AcceptedSet, Moves, NoteBroadcast, NoteAgreement, HandleBroadcast, HandleAgreement,
      TryOutput, NoteTry;
    var h, s := n.history, n.state;
    if s.decided {
      DecidedStays(h, s, c);
    } else if c.proposer < |s.proposals| {
      var r, h1 := MainMoves(h, s, c);
      if r.ok {
        MainOk(n, c, r, h1);
      } else {
        assert s.proposals[c.proposer := r.state] == s.proposals;
        assert h.outputs + [] == h.outputs;
      }
    } else {
      assert h.outputs + [] == h.outputs;
    }
  }

  lemma MainOk(n: Node, c: Call, r: Reply, h1: History)
    requires NodeInv(n) && !n.state.decided && IsCall(n.state, c) && VotesSucceed(c) && r.ok
    requires c.proposer < |n.state.proposals| && Moves(n.history, h1, c.proposer, n.state.proposals[c.proposer], r)
    requires r.state.Ongoing? ==> n.state.proposals[c.proposer].Ongoing?
    ensures var s1 := n.state.(proposals := n.state.proposals[c.proposer := r.state]);
            var t := TryOutput(s1, c.votes);
            && t.ok
            && NodeInv(Node(t.state, NoteTry(h1, s1, c.votes).(
                 outputs := n.history.outputs + (Outputs(c.proposer, r.output) + t.outputs))))
  {
    hide ProposalOk, ContributionsOk, AcceptedSet, TryOutput, NoteTry;
    var h, s := n.history, n.state;
    var s1 := s.(proposals := s.proposals[c.proposer := r.state]);
    MoveKeepsProposals(h, h1, s.proposals, c.proposer, r);
    MoveKeepsOutputs(h, h1, s.proposals, h.outputs, c.proposer, r);
    SubsetSize(AcceptedSet(s.proposals), AcceptedSet(s1.proposals));
    var out := h.outputs + Outputs(c.proposer, r.output);
    TryOk(h1, s1, c.votes, out);
    var t := TryOutput(s1, c.votes);
    assert out + t.outputs == h.outputs + (Outputs(c.proposer, r.output) + t.outputs);
  }

  lemma {:induction false} RunInv(net: NetworkInfo, calls: seq<Call>)
    requires IsRun(net, calls)
    ensures NodeInv(Run(net, calls))
  {
    if calls == [] {
      StartInv(net);
    } else {
      hide NodeInv, Handle, Note;
      var last := |calls| - 1;
      RunInv(net, calls[..last]);
      StepInv(Run(net, calls[..last]), calls[last]);
    }
  }

  // ----- Theorems -----

  /** In every run: `Done` is output at most once, and nothing after it; it is output exactly
      when `N - f` proposals are accepted and all are complete. */
  lemma DoneOnceAndLast(net: NetworkInfo, calls: seq<Call>)
    requires IsRun(net, calls)
    ensures var n := Run(net, calls);
            && (forall i :: 0 <= i < |n.history.outputs| && n.history.outputs[i] == Done ==> i == |n.history.outputs| - 1)
            && (Done in n.history.outputs <==>
                  |AcceptedSet(n.state.proposals)| >= net.NumCorrect() && AllComplete(n.state.proposals))
  {
    hide Run, ProposalOk, IsOutput;
    RunInv(net, calls);
    var n := Run(net, calls);
    var outputs := n.history.outputs;
    if n.state.decided {
      var before := outputs[..|outputs| - 1];
      forall i | 0 <= i < |outputs| - 1 ensures outputs[i] != Done {
        assert before[i] in before;
      }
    }
  }

  /** In every run: once `N - f` proposals are accepted, every agreement that has not decided
      has an input from us. Their number cannot jump over `N - f`. */
  lemma EveryAgreementHasInput(net: NetworkInfo, calls: seq<Call>, p: nat)
    requires IsRun(net, calls) && p < net.n
    requires |AcceptedSet(Run(net, calls).state.proposals)| >= net.NumCorrect()
    requires p !in Run(net, calls).history.decisions
    ensures p in Run(net, calls).history.inputs
  {
    hide Run, AcceptedSet, DoneOk;
    RunInv(net, calls);
    var n := Run(net, calls);
    assert ProposalOk(n.history, p, n.state.proposals[p]);
  }

  /** In every run: the proposals counted as accepted are those whose agreement said yes, and those
      counted as received are those whose value we have, unless their agreement said no. */
  lemma CountedIff(net: NetworkInfo, calls: seq<Call>, p: nat)
    requires IsRun(net, calls) && p < net.n
    ensures var n := Run(net, calls);
            && (n.state.proposals[p].IsAccepted() <==> p in n.history.decisions && n.history.decisions[p])
            && (n.state.proposals[p].IsReceived() <==>
                  p in n.history.values && (p in n.history.decisions ==> n.history.decisions[p]))
  {
    hide Run, AcceptedSet, DoneOk, InputsOk;
    RunInv(net, calls);
    var n := Run(net, calls);
    assert ProposalOk(n.history, p, n.state.proposals[p]);
  }

  lemma {:induction false} RunOnce(net: NetworkInfo, calls: seq<Call>)
    requires IsRun(net, calls)
    ensures SubsetOutputs.EachOnce(Run(net, calls).state.proposals, Run(net, calls).history.outputs)
  {
    if calls != [] {
      hide Handle, SubsetOutputs.EachOnce;
      var last := |calls| - 1;
      var before := Run(net, calls[..last]);
      RunOnce(net, calls[..last]);
      SubsetOutputs.HandleOnce(before.state, before.history.outputs, calls[last]);
      NotesOutputs(before.history, before.state, calls[last]);
    }
  }

  lemma NotesOutputs(h: History, s: State, c: Call)
    requires IsCall(s, c)
    ensures Note(h, s, c).outputs == h.outputs + Handle(s, c).outputs
  {
    assert h.outputs + [] == h.outputs;
  }

  predicate IsAcceptedValue(h: History, p: nat, v: Bytes) {
    p in h.decisions && h.decisions[p] && p in h.values && h.values[p] == v
  }

  /** In every run: the contributions are those whose agreement said yes, with the value that
      the broadcast delivered, each once. */
  lemma ContributionsAreAccepted(net: NetworkInfo, calls: seq<Call>, p: nat, v: Bytes)
    requires IsRun(net, calls)
    ensures var h := Run(net, calls).history;
            && (Contribution(p, v) in h.outputs ==> p < net.n && IsAcceptedValue(h, p, v))
            && (Done in h.outputs ==> (Contribution(p, v) in h.outputs <==> p < net.n && IsAcceptedValue(h, p, v)))
    ensures var outputs := Run(net, calls).history.outputs;
            forall i, j :: 0 <= i < j < |outputs| && outputs[i].Contribution? && outputs[j].Contribution? ==>
                             outputs[i].proposer != outputs[j].proposer
  {
    hide Run, AcceptedSet, InputsOk;
    RunInv(net, calls);
    RunOnce(net, calls);
    var n := Run(net, calls);
    var outputs := n.history.outputs;
    if p < net.n {
      assert ProposalOk(n.history, p, n.state.proposals[p]);
    }
    if n.state.decided {
      var before := outputs[..|outputs| - 1];
      assert outputs == before + [Done];
      assert Contribution(p, v) in outputs <==> Contribution(p, v) in before;
    }
  }

  /** Where both nodes have answers of the sub-protocols, they are the same. */
  ghost predicate SubProtocolsAgree(h: History, k: History) {
    && (forall p :: p in h.decisions && p in k.decisions ==> h.decisions[p] == k.decisions[p])
    && (forall p :: p in h.values && p in k.values ==> h.values[p] == k.values[p])
  }

  lemma DoneMeansDecided(net: NetworkInfo, calls: seq<Call>, p: nat)
    requires IsRun(net, calls) && Done in Run(net, calls).history.outputs && p < net.n
    ensures var h := Run(net, calls).history;
            p in h.decisions && (h.decisions[p] ==> p in h.values)
  {
    hide Run, AcceptedSet, InputsOk;
    RunInv(net, calls);
    var n := Run(net, calls);
    assert ProposalOk(n.history, p, n.state.proposals[p]);
  }

  /** The instance is called at all: a proposal is not complete, and this part of it is still open. */
  predicate IsAsked(st: ProposalState, c: Call) {
    st.Ongoing? || if c.ToBroadcast? then st.Accepted? else st.HasValue?
  }

  /** A call fails exactly for unknown proposers and by errors of the instance that is called. Then
      nothing has changed, and nothing is output. */
  lemma CallFailsIff(s: State, c: Call)
    requires IsCall(s, c) && VotesSucceed(c)
    ensures Handle(s, c).ok <==>
              && c.proposer < |s.proposals|
              && !(IsAsked(s.proposals[c.proposer], c) && if c.ToBroadcast? then c.bc.BcErr? else c.ba.BaErr?)
    ensures !Handle(s, c).ok ==> Handle(s, c) == Result(s, [], false)
  {
    hide AcceptedSet, VoteFalse;
    if c.proposer < |s.proposals| {
      var st := s.proposals[c.proposer];
      var r := if c.ToBroadcast? then HandleBroadcast(st, c.bc, c.vote) else HandleAgreement(st, c.ba);
      var s1 := s.(proposals := s.proposals[c.proposer := r.state]);
      VotesAreOk(s1.proposals, c.votes, 0);
      assert s.proposals[c.proposer := st] == s.proposals;
    }
  }

  lemma {:induction false} VotesAreOk(proposals: seq<ProposalState>, votes: seq<BaAnswer>, p: nat)
    requires p <= |proposals| == |votes| && forall i :: 0 <= i < |votes| ==> votes[i].BaOk?
    ensures VoteFalse(proposals, votes, p).ok
    decreases |proposals| - p
  {
    if p < |proposals| {
      VotesAreOk(proposals[p := HandleAgreement(proposals[p], votes[p]).state], votes, p + 1);
    }
  }

  /** Agreement: if the agreements and the broadcasts have given two nodes the same answers,
      and both are done, they have output the same contributions. */
  lemma Agreement(net: NetworkInfo, net': NetworkInfo, calls: seq<Call>, calls': seq<Call>, p: nat, v: Bytes)
    requires net.n == net'.n && IsRun(net, calls) && IsRun(net', calls')
    requires SubProtocolsAgree(Run(net, calls).history, Run(net', calls').history)
    requires Done in Run(net, calls).history.outputs && Done in Run(net', calls').history.outputs
    ensures Contribution(p, v) in Run(net, calls).history.outputs
            <==> Contribution(p, v) in Run(net', calls').history.outputs
  {
    hide Run;
    ContributionsAreAccepted(net, calls, p, v);
    ContributionsAreAccepted(net', calls', p, v);
    if p < net.n {
      DoneMeansDecided(net, calls, p);
      DoneMeansDecided(net', calls', p);
    }
  }

  /** Whoever is done has output the contributions of at least `N - f` proposers. */
  lemma EnoughContributions(net: NetworkInfo, calls: seq<Call>) returns (proposers: set<nat>)
    requires IsRun(net, calls) && Done in Run(net, calls).history.outputs
    ensures |proposers| >= net.NumCorrect()
    ensures forall p :: p in proposers ==>
              p in Run(net, calls).history.values
              && Contribution(p, Run(net, calls).history.values[p]) in Run(net, calls).history.outputs
  {
    hide Run, InputsOk;
    RunInv(net, calls);
    DoneOnceAndLast(net, calls);
    var n := Run(net, calls);
    proposers := AcceptedSet(n.state.proposals);
    forall p | p in proposers
      ensures p in n.history.values && Contribution(p, n.history.values[p]) in n.history.outputs
    {
      assert ProposalOk(n.history, p, n.state.proposals[p]);
      ContributionsAreAccepted(net, calls, p, n.history.values[p]);
    }
  }
}
