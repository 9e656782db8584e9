/** The vote counter as it is implemented, by updating its maps in place. */
module VotesObject {
  import opened Options
  import opened Orders
  import opened VotesSpec

  class VoteCounter {
    const ourId: nat
    const keys: map<nat, nat>
    const era: nat
    var pending: Pending
    var committed: Committed

    constructor (ourId: nat, keys: map<nat, nat>, era: nat)
      ensures this.ourId == ourId && this.keys == keys && this.era == era
      ensures pending == map[] && committed == map[]
    {
      this.ourId, this.keys, this.era := ourId, keys, era;
      pending, committed := map[], map[];
    }

    method SignVoteFor(change: Change, ourKey: nat) returns (sv: SignedVote)
      modifies this`pending
      ensures sv == SignVote(ourId, ourKey, era, old(pending), change)
      ensures pending == old(pending)[ourId := sv]
    {
      var num := if ourId in pending then pending[ourId].vote.num + 1 else 0;
      var vote := Vote(change, era, num);
      sv := SignedVote(vote, ourId, VoteSignature(ourKey, vote));
      pending := pending - {ourId};
      pending := pending[ourId := sv];
      assert pending == old(pending)[ourId := sv];
    }

    method AddPendingVote(sv: SignedVote) returns (fault: Option<VoteFault>)
      modifies this`pending
      ensures pending == AddPending(keys, era, old(pending), sv)
      ensures fault == if sv.vote.era == era && !IsKnown(old(pending), sv) && !Validate(keys, sv)
                       then Some(InvalidVoteSignature) else None
    {
      if sv.vote.era != era || IsKnown(pending, sv) {
        return None; // not for this era, or not newer than the one we have
      }
      if !Validate(keys, sv) {
        return Some(InvalidVoteSignature);
      }
      pending := pending[sv.voter := sv];
      fault := None;
    }

    method AddCommittedVotes(svs: seq<SignedVote>) returns (faults: nat)
      modifies this`committed
      ensures committed == AddVotes(keys, era, old(committed), svs)
      ensures faults == CountFaults(keys, era, old(committed), svs)
    {
      faults := 0;
      var i := 0;
      while i < |svs|
        invariant i <= |svs|
        invariant AddVotes(keys, era, committed, svs[i..]) == AddVotes(keys, era, old(committed), svs)
        invariant faults + CountFaults(keys, era, committed, svs[i..]) == CountFaults(keys, era, old(committed), svs)
      {
        hide AddVote;
        assert svs[i..][1..] == svs[i + 1..];
        var fault := AddCommittedVote(svs[i]);
        faults := faults + if fault.Some? then 1 else 0;
        i := i + 1;
      }
    }

    method AddCommittedVote(sv: SignedVote) returns (fault: Option<VoteFault>)
      modifies this`committed
      ensures committed == AddVote(keys, era, old(committed), sv)
      ensures fault == if IsSuperseded(old(committed), sv) || CountsNow(keys, era, old(committed), sv)
                       then None else Some(InvalidCommittedVote)
    {
      if sv.voter in committed && committed[sv.voter].num >= sv.vote.num {
        return None;
      }
      if sv.vote.era != era || !Validate(keys, sv) {
        return Some(InvalidCommittedVote);
      }
      committed := committed[sv.voter := sv.vote];
      fault := None;
    }

    /** Counts the votes of one voter after the other. */
    method ComputeWinner(f: nat) returns (winner: Option<Change>)
      ensures winner == VotesSpec.ComputeWinner(committed, f)
    {
      var voteCounts: map<Change, nat> := map[];
      var rest := committed.Keys;
      ghost var counted: set<nat> := {};
      while rest != {}
        invariant rest <= committed.Keys && counted == committed.Keys - rest
        invariant forall c :: (if c in voteCounts then voteCounts[c] else 0) == |VotersFor(committed, counted, c)|
        invariant WinnerFrom(committed, counted, rest, f) == VotesSpec.ComputeWinner(committed, f)
        decreases |rest|
      {
        hide Least;
        var id := Least(rest);
        assert id in rest;
        var change := committed[id].change;
        var entry := (if change in voteCounts then voteCounts[change] else 0) + 1;
        OneMore(committed, counted, id);
        voteCounts := voteCounts[change := entry];
        if entry > f {
          return Some(change);
        }
        rest := rest - {id};
        counted := counted + {id};
      }
      winner := None;
    }

    lemma OneMore(committed: Committed, counted: set<nat>, id: nat)
      requires id in committed && id !in counted
      ensures forall c :: |VotersFor(committed, counted + {id}, c)|
                          == |VotersFor(committed, counted, c)| + if c == committed[id].change then 1 else 0
    {
      forall c
        ensures |VotersFor(committed, counted + {id}, c)|
                == |VotersFor(committed, counted, c)| + if c == committed[id].change then 1 else 0
      {
        if c == committed[id].change {
          assert VotersFor(committed, counted + {id}, c) == VotersFor(committed, counted, c) + {id};
        } else {
          assert VotersFor(committed, counted + {id}, c) == VotersFor(committed, counted, c);
        }
      }
    }
  }
}
