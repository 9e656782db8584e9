/** Votes for changes of the validator set, and how they are counted. Signatures are ideal:
    they say whose they are and what they are for. */
module VotesSpec {
  import opened Options
  import opened Orders
  import opened Quorums

  /** New validators with their public keys, or a new encryption schedule. */
  datatype Change = NodeChange(keys: map<nat, nat>) | EncryptionSchedule(schedule: nat)

  datatype Vote = Vote(change: Change, era: nat, num: nat)

  datatype VoteSignature = VoteSignature(key: nat, vote: Vote)

  datatype SignedVote = SignedVote(vote: Vote, voter: nat, sig: VoteSignature)

  predicate Validate(keys: map<nat, nat>, sv: SignedVote) {
    sv.voter in keys && sv.sig == VoteSignature(keys[sv.voter], sv.vote)
  }

  type Committed = map<nat, Vote>

  datatype VoteFault = InvalidVoteSignature | InvalidCommittedVote

  /** Whether there is a vote of this voter with this or a higher number. */
  predicate IsSuperseded(committed: Committed, sv: SignedVote) {
    sv.voter in committed && committed[sv.voter].num >= sv.vote.num
  }

  predicate CountsNow(keys: map<nat, nat>, era: nat, committed: Committed, sv: SignedVote) {
    !IsSuperseded(committed, sv) && sv.vote.era == era && Validate(keys, sv)
  }

  function AddVote(keys: map<nat, nat>, era: nat, committed: Committed, sv: SignedVote): Committed {
    if CountsNow(keys, era, committed, sv) then committed[sv.voter := sv.vote] else committed
  }

  function AddVotes(keys: map<nat, nat>, era: nat, committed: Committed, svs: seq<SignedVote>): Committed
    decreases |svs|
  {
    if svs == [] then committed else AddVotes(keys, era, AddVote(keys, era, committed, svs[0]), svs[1..])
  }

  /** How many of these votes are neither superseded nor valid when they are handled. */
  function CountFaults(keys: map<nat, nat>, era: nat, committed: Committed, svs: seq<SignedVote>): nat
    decreases |svs|
  {
    if svs == [] then 0
    else
      (if IsSuperseded(committed, svs[0]) || CountsNow(keys, era, committed, svs[0]) then 0 else 1)
      + CountFaults(keys, era, AddVote(keys, era, committed, svs[0]), svs[1..])
  }

  // ----- Counting -----

  /** The voters among `ids` who voted for this change. */
  function VotersFor(committed: Committed, ids: set<nat>, change: Change): set<nat> {
    set id | id in ids && id in committed && committed[id].change == change
  }

  /** The first change, by voters, that gets more than `f` votes. */
  function WinnerFrom(committed: Committed, counted: set<nat>, rest: set<nat>, f: nat): Option<Change>
    requires rest <= committed.Keys
    decreases |rest|
  {
    if rest == {} then None
    else
      var id := Least(rest);
      var change := committed[id].change;
      if |VotersFor(committed, counted + {id}, change)| > f then Some(change)
      else WinnerFrom(committed, counted + {id}, rest - {id}, f)
  }

  function ComputeWinner(committed: Committed, f: nat): Option<Change> {
    WinnerFrom(committed, {}, committed.Keys, f)
  }

  lemma {:induction false} WinnerFromIsWinner(committed: Committed, counted: set<nat>, rest: set<nat>, f: nat)
    requires rest <= committed.Keys && counted + rest == committed.Keys && counted !! rest
    requires forall c :: |VotersFor(committed, counted, c)| <= f
    ensures var w := WinnerFrom(committed, counted, rest, f);
            && (w.Some? ==> |VotersFor(committed, committed.Keys, w.value)| > f)
            && (w.None? ==> forall c :: |VotersFor(committed, committed.Keys, c)| <= f)
    decreases |rest|
  {
    if rest == {} {
      assert counted == committed.Keys;
    } else {
      var id := Least(rest);
      assert id in rest;
      var change := committed[id].change;
      if |VotersFor(committed, counted + {id}, change)| > f {
        MoreVoters(committed, counted + {id}, committed.Keys, change);
      } else {
        forall c ensures |VotersFor(committed, counted + {id}, c)| <= f {
          if c != change {
            assert VotersFor(committed, counted + {id}, c) == VotersFor(committed, counted, c);
          }
        }
        WinnerFromIsWinner(committed, counted + {id}, rest - {id}, f);
      }
    }
  }

  lemma MoreVoters(committed: Committed, a: set<nat>, b: set<nat>, change: Change)
    requires a <= b
    ensures |VotersFor(committed, a, change)| <= |VotersFor(committed, b, change)|
  {
    SubsetSize(VotersFor(committed, a, change), VotersFor(committed, b, change));
  }

  /** There is a winner exactly if some change has more than `f` votes, and it has. */
  lemma WinnerIff(committed: Committed, f: nat)
    ensures var w := ComputeWinner(committed, f);
            && (w.Some? <==> exists c :: |VotersFor(committed, committed.Keys, c)| > f)
            && (w.Some? ==> |VotersFor(committed, committed.Keys, w.value)| > f)
  {
    hide WinnerFrom;
    assert forall c :: VotersFor(committed, {}, c) == {};
    WinnerFromIsWinner(committed, {}, committed.Keys, f);
  }

  // ----- Committed votes -----

  /** The voter `id` has signed this vote with its own key, for this era. */
  ghost predicate IsOwnVote(keys: map<nat, nat>, era: nat, id: nat, vote: Vote, sv: SignedVote) {
    && sv.voter == id && sv.vote == vote && vote.era == era
    && id in keys && sv.sig.key == keys[id] && sv.sig.vote == vote
  }

  /** One of these is a vote that `id` has signed, and says this. */
  ghost predicate HasSigned(keys: map<nat, nat>, era: nat, id: nat, vote: Vote, svs: set<SignedVote>) {
    exists sv :: sv in svs && IsOwnVote(keys, era, id, vote, sv)
  }

  function AsSet(svs: seq<SignedVote>): set<SignedVote> {
    set sv | sv in svs
  }

  /** Nothing is committed in the name of a voter but what the voter has signed, whoever has
      proposed it. */
  lemma {:induction false} CommittedAreSigned(
    keys: map<nat, nat>, era: nat, committed: Committed, svs: seq<SignedVote>, id: nat)
    requires id in AddVotes(keys, era, committed, svs)
    ensures var vote := AddVotes(keys, era, committed, svs)[id];
            || (id in committed && vote == committed[id])
            || HasSigned(keys, era, id, vote, AsSet(svs))
    decreases |svs|
  {
    if svs != [] {
      var next := AddVote(keys, era, committed, svs[0]);
      CommittedAreSigned(keys, era, next, svs[1..], id);
      var vote := AddVotes(keys, era, committed, svs)[id];
      if id in next && vote == next[id] {
        if !(id in committed && vote == committed[id]) {
          assert svs[0] in AsSet(svs) && IsOwnVote(keys, era, id, vote, svs[0]);
        }
      } else {
        var sv :| sv in AsSet(svs[1..]) && IsOwnVote(keys, era, id, vote, sv);
        assert sv in AsSet(svs);
      }
    }
  }

  /** After all of `svs`, no voter has a vote with a lower number than before, or than any among
      them that it has signed. */
  lemma {:induction false} HighestVoteStays(
    keys: map<nat, nat>, era: nat, committed: Committed, svs: seq<SignedVote>, i: nat)
    ensures var after := AddVotes(keys, era, committed, svs);
            && (forall id :: id in committed ==> id in after && committed[id].num <= after[id].num)
            && (i < |svs| && IsOwnVote(keys, era, svs[i].voter, svs[i].vote, svs[i]) ==>
                  svs[i].voter in after && svs[i].vote.num <= after[svs[i].voter].num)
    decreases |svs|
  {
    if svs != [] {
      var next := AddVote(keys, era, committed, svs[0]);
      HighestVoteStays(keys, era, next, svs[1..], if i > 0 then i - 1 else 0);
    }
  }

  /** In its turn, this vote is neither too old to matter nor signed by its voter for this era. */
  ghost predicate IsFaulty(keys: map<nat, nat>, era: nat, committed: Committed, svs: seq<SignedVote>, i: nat)
    requires i < |svs|
  {
    var before, sv := AddVotes(keys, era, committed, svs[..i]), svs[i];
    !(sv.voter in before && before[sv.voter].num >= sv.vote.num) && !IsOwnVote(keys, era, sv.voter, sv.vote, sv)
  }

  ghost function FaultyVotes(keys: map<nat, nat>, era: nat, committed: Committed, svs: seq<SignedVote>): set<nat> {
    set i: nat | i < |svs| && IsFaulty(keys, era, committed, svs, i)
  }

  lemma {:induction false} OneVoteMore(
    keys: map<nat, nat>, era: nat, committed: Committed, svs: seq<SignedVote>, sv: SignedVote)
    ensures var before := AddVotes(keys, era, committed, svs);
            && AddVotes(keys, era, committed, svs + [sv]) == AddVote(keys, era, before, sv)
            && CountFaults(keys, era, committed, svs + [sv])
               == CountFaults(keys, era, committed, svs) + CountFaults(keys, era, before, [sv])
    decreases |svs|
  {
    if svs == [] {
      assert [sv][1..] == [];
    } else {
      assert (svs + [sv])[1..] == svs[1..] + [sv];
      OneVoteMore(keys, era, AddVote(keys, era, committed, svs[0]), svs[1..], sv);
    }
  }

  /** As many faults are reported as there are such votes. */
  lemma {:induction false} FaultsAreCounted(
    keys: map<nat, nat>, era: nat, committed: Committed, svs: seq<SignedVote>)
    ensures CountFaults(keys, era, committed, svs) == |FaultyVotes(keys, era, committed, svs)|
    decreases |svs|
  {
    hide AddVotes, IsFaulty;
    if svs == [] {
      assert FaultyVotes(keys, era, committed, svs) == {};
    } else {
      hide CountFaults;
      var last := |svs| - 1;
      var before := svs[..last];
      FaultsAreCounted(keys, era, committed, before);
      OneVoteMore(keys, era, committed, before, svs[last]);
      assert svs == before + [svs[last]];
      OneFaultMore(keys, era, committed, svs);
      MoreFaulty(keys, era, committed, svs);
    }
  }

  lemma OneFaultMore(keys: map<nat, nat>, era: nat, committed: Committed, svs: seq<SignedVote>)
    requires svs != []
    ensures var last := |svs| - 1;
            CountFaults(keys, era, AddVotes(keys, era, committed, svs[..last]), [svs[last]])
            == if IsFaulty(keys, era, committed, svs, last) then 1 else 0
  {
    hide AddVotes;
    assert [svs[|svs| - 1]][1..] == [];
  }

  lemma MoreFaulty(keys: map<nat, nat>, era: nat, committed: Committed, svs: seq<SignedVote>)
    requires svs != []
    ensures var last := |svs| - 1;
            |FaultyVotes(keys, era, committed, svs)|
            == |FaultyVotes(keys, era, committed, svs[..last])|
               + if IsFaulty(keys, era, committed, svs, last) then 1 else 0
  {
    var last := |svs| - 1;
    var before := svs[..last];
    forall i: nat | i < last
      ensures IsFaulty(keys, era, committed, svs, i) <==> IsFaulty(keys, era, committed, before, i)
    {
      assert svs[..i] == before[..i];
    }
    hide IsFaulty;
    var faulty := FaultyVotes(keys, era, committed, before);
    assert FaultyVotes(keys, era, committed, svs)
        == if IsFaulty(keys, era, committed, svs, last) then faulty + {last} else faulty;
  }

  // ----- Pending votes -----

  type Pending = map<nat, SignedVote>

  /** Whether there is a pending vote of this voter with this or a higher number. */
  predicate IsKnown(pending: Pending, sv: SignedVote) {
    sv.voter in pending && pending[sv.voter].vote.num >= sv.vote.num
  }

  function AddPending(keys: map<nat, nat>, era: nat, pending: Pending, sv: SignedVote): Pending {
    if sv.vote.era != era || IsKnown(pending, sv) || !Validate(keys, sv) then pending else pending[sv.voter := sv]
  }

  function SignVote(ourId: nat, ourKey: nat, era: nat, pending: Pending, change: Change): SignedVote {
    var vote := Vote(change, era, if ourId in pending then pending[ourId].vote.num + 1 else 0);
    SignedVote(vote, ourId, VoteSignature(ourKey, vote))
  }

  /** The voters whose pending vote is newer than their committed one. */
  function PendingVoters(committed: Committed, pending: Pending): set<nat> {
    set id | id in pending && pending[id].voter in pending && !IsSuperseded(committed, pending[id])
  }

  /** Every pending vote is one that its voter has signed for this era. */
  ghost predicate PendingSigned(keys: map<nat, nat>, era: nat, pending: Pending) {
    forall id :: id in pending ==> IsOwnVote(keys, era, id, pending[id].vote, pending[id])
  }

  /** Received votes become pending exactly if they are signed by their voter, for this era, and
      have a higher number than the one before. All others leave things as they are. */
  lemma PendingAreSigned(keys: map<nat, nat>, era: nat, pending: Pending, sv: SignedVote)
    ensures var after := AddPending(keys, era, pending, sv);
            if IsOwnVote(keys, era, sv.voter, sv.vote, sv)
               && (sv.voter in pending ==> pending[sv.voter].vote.num < sv.vote.num)
            then after == pending[sv.voter := sv]
            else after == pending
    ensures PendingSigned(keys, era, pending) ==> PendingSigned(keys, era, AddPending(keys, era, pending, sv))
  {
  }

  /** Exactly the pending votes that are newer than the committed ones of their voters are proposed.
      Once such a vote is committed, it counts, and is no longer pending. */
  lemma ProposedVoteCounts(keys: map<nat, nat>, era: nat, committed: Committed, pending: Pending, id: nat)
    requires PendingSigned(keys, era, pending)
    ensures id in PendingVoters(committed, pending)
            <==> id in pending && (id in committed ==> committed[id].num < pending[id].vote.num)
    ensures id in PendingVoters(committed, pending) ==>
              var after := AddVote(keys, era, committed, pending[id]);
              after == committed[id := pending[id].vote] && id !in PendingVoters(after, pending)
  {
  }

  /** Each vote that a validator casts replaces its pending one, here and with its peers. */
  lemma NewVoteReplaces(keys: map<nat, nat>, ourId: nat, era: nat, pending: Pending, other: Pending, change: Change)
    requires ourId in keys
    requires ourId in other ==> ourId in pending && other[ourId].vote.num <= pending[ourId].vote.num
    ensures var sv := SignVote(ourId, keys[ourId], era, pending, change);
            && IsOwnVote(keys, era, ourId, sv.vote, sv) && sv.vote.change == change
            && sv.vote.num == (if ourId in pending then pending[ourId].vote.num + 1 else 0)
            && AddPending(keys, era, other, sv) == other[ourId := sv]
  {
  }
}
