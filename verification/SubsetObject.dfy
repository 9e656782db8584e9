/** The subset protocol as it is implemented, by updating its proposal states in place. */
module SubsetObject {
  import opened Options
  import opened Quorums
  import opened Merkle
  import opened SubsetSpec

  class Subset {
    const net: NetworkInfo
    var proposalStates: seq<ProposalState>
    var decided: bool

    function View(): State
      reads this
    {
      State(net, proposalStates, decided)
    }

    constructor (net: NetworkInfo)
      ensures View() == Initial(net)
    {
      this.net := net;
      proposalStates := seq(net.n, _ => Ongoing);
      decided := false;
    }

    /** Proposes a value. Observers have none. */
    method Propose(bc: BcAnswer, vote: BaAnswer, votes: seq<BaAnswer>) returns (outputs: seq<Output>, ok: bool)
      requires |votes| == |proposalStates|
      modifies this
      ensures if net.IsValidator() then
                Result(View(), outputs, ok) == SubsetSpec.Handle(old(View()), ToBroadcast(net.ourId, bc, vote, votes))
              else View() == old(View()) && outputs == [] && ok
    {
      if !net.IsValidator() {
        return [], true;
      }
      outputs, ok := Handle(ToBroadcast(net.ourId, bc, vote, votes));
    }

    method Handle(c: Call) returns (outputs: seq<Output>, ok: bool)
      requires IsCall(View(), c)
      modifies this
      ensures Result(View(), outputs, ok) == SubsetSpec.Handle(old(View()), c)
    {
      hide SubsetSpec.TryOutput;
      if c.proposer >= |proposalStates| {
        return [], false;
      }
      var state := proposalStates[c.proposer];
      var reply := match c
        case ToBroadcast(_, bc, vote, _) => HandleBroadcast(state, bc, vote)
        case ToAgreement(_, ba, _) => HandleAgreement(state, ba);
      proposalStates := proposalStates[c.proposer := reply.state];
      assert View() == old(View()).(proposals := old(proposalStates)[c.proposer := reply.state]);
      if !reply.ok {
        return [], false;
      }
      outputs, ok := TryOutput(c.votes);
      if !ok {
        return [], false;
      }
      outputs := Outputs(c.proposer, reply.output) + outputs;
    }

    method CountAccepted() returns (count: nat)
      ensures count == |AcceptedSet(proposalStates)|
    {
      count := 0;
      var p := 0;
      ghost var seen: set<nat> := {};
      while p < |proposalStates|
        invariant p <= |proposalStates|
        invariant seen == (set q | q in AcceptedSet(proposalStates) && q < p)
        invariant count == |seen|
      {
        if proposalStates[p].IsAccepted() {
          count := count + 1;
          seen := seen + {p};
        }
        p := p + 1;
      }
      assert seen == AcceptedSet(proposalStates);
    }

    /** How many proposals we have received already. */
    method ReceivedProposals() returns (count: nat)
      ensures count == |set p: nat | p < |proposalStates| && proposalStates[p].IsReceived()|
    {
      count := 0;
      var p := 0;
      ghost var all := set q: nat | q < |proposalStates| && proposalStates[q].IsReceived();
      ghost var seen: set<nat> := {};
      while p < |proposalStates|
        invariant p <= |proposalStates|
        invariant seen == (set q | q in all && q < p)
        invariant count == |seen|
      {
        if proposalStates[p].IsReceived() {
          count := count + 1;
          seen := seen + {p};
        }
        p := p + 1;
      }
      assert seen == all;
    }

    /** Votes against the remaining proposals when enough are accepted, and concludes when
        everything is decided. */
    method TryOutput(votes: seq<BaAnswer>) returns (outputs: seq<Output>, ok: bool)
      requires |votes| == |proposalStates|
      modifies this
      ensures Result(View(), outputs, ok) == SubsetSpec.TryOutput(old(View()), votes)
    {
      outputs, ok := [], true;
      var count := CountAccepted();
      if decided || count < net.NumCorrect() {
        return;
      }
      if count == net.NumCorrect() {
        outputs, ok := VoteAgainstAll(votes);
        if !ok {
          return [], false;
        }
      }
      assert outputs + [] == outputs;
      if forall p :: 0 <= p < |proposalStates| ==> proposalStates[p].Complete? {
        decided := true;
        outputs := outputs + [Done];
      }
    }

    method VoteAgainstAll(votes: seq<BaAnswer>) returns (outputs: seq<Output>, ok: bool)
      requires |votes| == |proposalStates|
      modifies this
      ensures View() == old(View()).(proposals := proposalStates)
      ensures var v := VoteFalse(old(proposalStates), votes, 0);
              proposalStates == v.proposals && ok == v.ok && (ok ==> outputs == v.outputs)
    {
      hide SubsetSpec.HandleAgreement;
      outputs := [];
      var p := 0;
      while p < |proposalStates|
        invariant p <= |proposalStates| == |votes|
        invariant View() == old(View()).(proposals := proposalStates)
        invariant var v, rest := VoteFalse(old(proposalStates), votes, 0), VoteFalse(proposalStates, votes, p);
                  v.proposals == rest.proposals && v.ok == rest.ok && v.outputs == (if v.ok then outputs + rest.outputs else v.outputs)
      {
        var reply := HandleAgreement(proposalStates[p], votes[p]);
        proposalStates := proposalStates[p := reply.state];
        if !reply.ok {
          return [], false;
        }
        outputs := outputs + Outputs(p, reply.output);
        p := p + 1;
      }
      ok := true;
      assert outputs + [] == outputs;
    }
  }
}
