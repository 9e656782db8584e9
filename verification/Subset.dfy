/** The subset protocol as functions. The broadcast and the agreement for each proposer are
    seen through their answers: what a call to them returned. */
module SubsetSpec {
  import opened Options
  import opened Quorums
  import opened Merkle

  datatype ProposalState =
    | Ongoing
    | HasValue(value: Bytes)
    | Accepted
    | Complete(accepted: bool)
  {
    predicate IsAccepted() {
      Accepted? || (Complete? && accepted)
    }

    predicate IsReceived() {
      HasValue? || (Complete? && accepted)
    }
  }

  datatype BcAnswer = BcOk(value: Option<Bytes>) | BcErr

  datatype BaAnswer = BaOk(decision: Option<bool>) | BaErr

  datatype Reply = Reply(state: ProposalState, output: Option<Bytes>, ok: bool)

  /** Calls the agreement, if it is still needed. */
  function HandleAgreement(st: ProposalState, ba: BaAnswer): Reply {
    match st
    case Ongoing =>
      if ba.BaErr? then Reply(st, None, false)
      else if ba.decision.None? then Reply(st, None, true)
      else if ba.decision.value then Reply(Accepted, None, true)
      else Reply(Complete(false), None, true)
    case HasValue(value) =>
      if ba.BaErr? then Reply(st, None, false)
      else if ba.decision.None? then Reply(st, None, true)
      else if ba.decision.value then Reply(Complete(true), Some(value), true)
      else Reply(Complete(false), None, true)
    case Accepted => Reply(st, None, true)
    case Complete(_) => Reply(st, None, true)
  }

  /** Calls the broadcast, if it is still needed. If we have the value before the decision,
      we vote for it, and `vote` is the answer. */
  function HandleBroadcast(st: ProposalState, bc: BcAnswer, vote: BaAnswer): Reply {
    match st
    case Ongoing =>
      if bc.BcErr? then Reply(st, None, false)
      else if bc.value.None? then Reply(st, None, true)
      else HandleAgreement(HasValue(bc.value.value), vote)
    case Accepted =>
      if bc.BcErr? then Reply(st, None, false)
      else if bc.value.None? then Reply(st, None, true)
      else Reply(Complete(true), Some(bc.value.value), true)
    case HasValue(_) => Reply(st, None, true)
    case Complete(_) => Reply(st, None, true)
  }

  datatype Output = Contribution(proposer: nat, value: Bytes) | Done

  function Outputs(proposer: nat, output: Option<Bytes>): seq<Output> {
    if output.None? then [] else [Contribution(proposer, output.value)]
  }

  datatype State = State(net: NetworkInfo, proposals: seq<ProposalState>, decided: bool)

  function Initial(net: NetworkInfo): State {
    State(net, seq(net.n, _ => Ongoing), false)
  }

  function AcceptedSet(proposals: seq<ProposalState>): set<nat> {
    set p: nat | p < |proposals| && proposals[p].IsAccepted()
  }

  predicate AllComplete(proposals: seq<ProposalState>) {
    forall p :: 0 <= p < |proposals| ==> proposals[p].Complete?
  }

  datatype Votes = Votes(proposals: seq<ProposalState>, outputs: seq<Output>, ok: bool)

  /** Votes against all proposals from `p` on, until a call fails. */
  function VoteFalse(proposals: seq<ProposalState>, votes: seq<BaAnswer>, p: nat): Votes
    requires p <= |proposals| == |votes|
    decreases |proposals| - p
  {
    if p == |proposals| then Votes(proposals, [], true)
    else
      var r := HandleAgreement(proposals[p], votes[p]);
      var next := proposals[p := r.state];
      if !r.ok then Votes(next, [], false)
      else
        var rest := VoteFalse(next, votes, p + 1);
        Votes(rest.proposals, Outputs(p, r.output) + rest.outputs, rest.ok)
  }

  datatype Result = Result(state: State, outputs: seq<Output>, ok: bool)

  function TryOutput(s: State, votes: seq<BaAnswer>): Result
    requires |s.proposals| == |votes|
  {
    var count := |AcceptedSet(s.proposals)|;
    if s.decided || count < s.net.NumCorrect() then Result(s, [], true)
    else
      var v := if count == s.net.NumCorrect() then VoteFalse(s.proposals, votes, 0) else Votes(s.proposals, [], true);
      var s1 := s.(proposals := v.proposals);
      if !v.ok then Result(s1, [], false)
      else if AllComplete(v.proposals) then Result(s1.(decided := true), v.outputs + [Done], true)
      else Result(s1, v.outputs, true)
  }

  /** A message or an input for one of the broadcasts, or a message for an agreement, with
      the answers of that instance, and those to the votes that may follow. */
  datatype Call =
    | ToBroadcast(proposer: nat, bc: BcAnswer, vote: BaAnswer, votes: seq<BaAnswer>)
    | ToAgreement(proposer: nat, ba: BaAnswer, votes: seq<BaAnswer>)

  predicate IsCall(s: State, c: Call) {
    |c.votes| == |s.proposals|
  }

  function Handle(s: State, c: Call): Result
    requires IsCall(s, c)
  {
    if c.proposer >= |s.proposals| then Result(s, [], false)
    else
      var st := s.proposals[c.proposer];
      var r := if c.ToBroadcast? then HandleBroadcast(st, c.bc, c.vote) else HandleAgreement(st, c.ba);
      var s1 := s.(proposals := s.proposals[c.proposer := r.state]);
      if !r.ok then Result(s1, [], false)
      else
        var t := TryOutput(s1, c.votes);
        if !t.ok then Result(t.state, [], false)
        else Result(t.state, Outputs(c.proposer, r.output) + t.outputs, true)
  }
}
