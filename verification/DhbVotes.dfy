/** The votes behind a change of Dynamic Honey Badger, and the user contributions of a batch. */
module DhbVotes {
  import opened Options
  import opened Quorums
  import opened VotesSpec
  import opened DhbSpec
  import opened DhbReplication
  import opened DhbFailures

  // ----- Votes -----

  /** The votes in these contributions, whoever has proposed them. */
  function VotesIn(cs: seq<(nat, InternalContrib)>): set<SignedVote> {
    set i, sv | 0 <= i < |cs| && sv in cs[i].1.votes :: sv
  }

  /** The votes in the first batches. */
  function Cast(bs: seq<HbBatch>): set<SignedVote> {
    set i, sv | 0 <= i < |bs| && sv in VotesIn(bs[i].contributions) :: sv
  }

  /** Every vote that counts in this state was cast, and signed by its voter for this era. */
  ghost predicate IsBacked(s: State, cast: set<SignedVote>) {
    forall id :: id in s.committed ==> HasSigned(s.net.keys, s.era, id, s.committed[id], cast)
  }

  lemma BackedByMore(s: State, cast: set<SignedVote>, more: set<SignedVote>)
    requires IsBacked(s, cast) && cast <= more
    ensures IsBacked(s, more)
  {
    forall id | id in s.committed ensures HasSigned(s.net.keys, s.era, id, s.committed[id], more) {
      SignedAmongMore(s.net.keys, s.era, id, s.committed[id], cast, more);
    }
  }

  lemma SignedAmongMore(
    keys: map<nat, nat>, era: nat, id: nat, vote: Vote, cast: set<SignedVote>, more: set<SignedVote>)
    requires HasSigned(keys, era, id, vote, cast) && cast <= more
    ensures HasSigned(keys, era, id, vote, more)
  {
    var sv :| sv in cast && IsOwnVote(keys, era, id, vote, sv);
    assert sv in more;
  }

  lemma ContributionBacked(s: State, c: InternalContrib, cast: set<SignedVote>)
    requires IsBacked(s, cast)
    ensures IsBacked(HandleContribution(s, c).state, cast + AsSet(c.votes))
  {
    hide AddVotes, HandleAllSigned, IsOwnVote;
    var all := cast + AsSet(c.votes);
    var s1 := s.(committed := AddVotes(s.net.keys, s.era, s.committed, c.votes));
    var t := HandleContribution(s, c).state;
    MessagesKeepVotes(s1, c.keyGenMessages);
    forall id | id in t.committed ensures HasSigned(s.net.keys, s.era, id, t.committed[id], all) {
      CommittedAreSigned(s.net.keys, s.era, s.committed, c.votes, id);
      if id in s.committed && t.committed[id] == s.committed[id] {
        SignedAmongMore(s.net.keys, s.era, id, t.committed[id], cast, all);
      } else {
        SignedAmongMore(s.net.keys, s.era, id, t.committed[id], AsSet(c.votes), all);
      }
    }
  }

  lemma {:induction false} MessagesKeepVotes(s: State, ms: seq<SignedKeyGenMsg>)
    ensures var t := HandleAllSigned(s, ms).state;
            t.committed == s.committed && t.net == s.net && t.era == s.era
    decreases |ms|
  {
    if ms != [] {
      hide VerifySignature;
      MessagesKeepVotes(HandleSigned(s, ms[0]).state, ms[1..]);
    }
  }

  lemma {:induction false} ContributionsBacked(s: State, cs: seq<(nat, InternalContrib)>, cast: set<SignedVote>)
    requires IsBacked(s, cast)
    ensures IsBacked(HandleContributions(s, cs).state, cast + VotesIn(cs))
    decreases |cs|
  {
    hide HandleContribution, IsBacked;
    if cs == [] {
      BackedByMore(s, cast, cast + VotesIn(cs));
    } else {
      var s1 := HandleContribution(s, cs[0].1).state;
      var first := cast + AsSet(cs[0].1.votes);
      ContributionBacked(s, cs[0].1, cast);
      ContributionsBacked(s1, cs[1..], first);
      FirstVotes(cs);
      BackedByMore(s1, first, cast + VotesIn(cs));
      BackedByMore(HandleContributions(s1, cs[1..]).state, first + VotesIn(cs[1..]), cast + VotesIn(cs));
    }
  }

  lemma FirstVotes(cs: seq<(nat, InternalContrib)>)
    requires cs != []
    ensures AsSet(cs[0].1.votes) + VotesIn(cs[1..]) <= VotesIn(cs)
  {
    forall sv | sv in VotesIn(cs[1..]) ensures sv in VotesIn(cs) {
      var i :| 0 <= i < |cs[1..]| && sv in cs[1..][i].1.votes;
      assert sv in cs[i + 1].1.votes;
    }
  }

  /** A batch keeps that: a new era has no votes, and without one the keys stay. */
  lemma BatchBacked(s: State, b: HbBatch, cast: set<SignedVote>)
    requires IsBacked(s, cast)
    ensures IsBacked(ProcessBatch(s, b).state, cast + VotesIn(b.contributions))
  {
    ContributionsBacked(s, b.contributions, cast);
    var t := HandleContributions(s, b.contributions).state;
    ChangeKeepsVotes(t, b.epoch + s.era + 1);
    hide HandleContributions, ApplyChange, UserContributions;
  }

  lemma ChangeKeepsVotes(s: State, nextEra: nat)
    ensures var t := ApplyChange(s, nextEra).state;
            t.committed == map[] || (t.committed == s.committed && t.net == s.net && t.era == s.era)
  {
    hide IsReady, IntoNetworkInfo, ComputeWinner;
  }

  lemma {:induction false} OutputBacked(s: State, bs: seq<HbBatch>, cast: set<SignedVote>)
    requires IsBacked(s, cast)
    ensures IsBacked(ProcessOutput(s, bs).state, cast + Cast(bs))
    decreases |bs|
  {
    hide ProcessBatch, IsBacked;
    if bs == [] {
      BackedByMore(s, cast, cast + Cast(bs));
    } else {
      var t := ProcessBatch(s, bs[0]).state;
      var first := cast + VotesIn(bs[0].contributions);
      BatchBacked(s, bs[0], cast);
      OutputBacked(t, bs[1..], first);
      FirstCast(bs);
      BackedByMore(t, first, cast + Cast(bs));
      BackedByMore(ProcessOutput(t, bs[1..]).state, first + Cast(bs[1..]), cast + Cast(bs));
    }
  }

  lemma FirstCast(bs: seq<HbBatch>)
    requires bs != []
    ensures VotesIn(bs[0].contributions) + Cast(bs[1..]) <= Cast(bs)
  {
    hide VotesIn;
    forall sv | sv in Cast(bs[1..]) ensures sv in Cast(bs) {
      var i :| 0 <= i < |bs[1..]| && sv in VotesIn(bs[1..][i].contributions);
      assert sv in VotesIn(bs[i + 1].contributions);
    }
  }

  /** More than `f` of the validators have signed a vote for this change, for this era. */
  ghost predicate IsWanted(keys: map<nat, nat>, era: nat, change: Change, cast: set<SignedVote>) {
    exists voters: set<nat> :: AllWant(keys, era, change, cast, voters)
  }

  ghost predicate AllWant(
    keys: map<nat, nat>, era: nat, change: Change, cast: set<SignedVote>, voters: set<nat>) {
    && voters <= keys.Keys && |voters| > Threshold(keys)
    && forall id :: id in voters ==> Wants(keys, era, change, cast, id)
  }

  ghost predicate Wants(keys: map<nat, nat>, era: nat, change: Change, cast: set<SignedVote>, id: nat) {
    exists sv :: sv in cast && sv.vote.change == change && IsOwnVote(keys, era, id, sv.vote, sv)
  }

  lemma WinnerIsWanted(s: State, cast: set<SignedVote>, change: Change)
    requires IsBacked(s, cast) && HasWon(s.committed, change, s.net.keys)
    ensures IsWanted(s.net.keys, s.era, change, cast)
  {
    hide IsOwnVote, Threshold;
    var voters := VotersFor(s.committed, s.committed.Keys, change);
    forall id | id in voters ensures id in s.net.keys && Wants(s.net.keys, s.era, change, cast, id) {
      var sv :| sv in cast && IsOwnVote(s.net.keys, s.era, id, s.committed[id], sv);
      OwnVoteSays(s.net.keys, s.era, id, s.committed[id], sv);
    }
    assert AllWant(s.net.keys, s.era, change, cast, voters);
  }

  lemma OwnVoteSays(keys: map<nat, nat>, era: nat, id: nat, vote: Vote, sv: SignedVote)
    requires IsOwnVote(keys, era, id, vote, sv)
    ensures id in keys && sv.vote == vote
  {
  }

  /** A change that a batch puts in force or begins, because it has won the votes. */
  predicate IsElected(batch: Batch, change: Change) {
    batch.change == InProgress(change) || (change.EncryptionSchedule? && batch.change == Completed(change))
  }

  lemma ElectedHasWon(s: State, nextEra: nat, change: Change)
    requires var c := ApplyChange(s, nextEra);
             && c.error.None?
             && (c.change == InProgress(change) || (change.EncryptionSchedule? && c.change == Completed(change)))
    ensures HasWon(s.committed, change, s.net.keys)
  {
    ChangeMeans(s, nextEra);
    hide ApplyChange, HasWon;
  }

  lemma BatchIsWanted(s: State, b: HbBatch, cast: set<SignedVote>, change: Change)
    requires IsBacked(s, cast) && ProcessBatch(s, b).Output? && IsElected(ProcessBatch(s, b).batch, change)
    ensures IsWanted(s.net.keys, s.era, change, cast + VotesIn(b.contributions))
  {
    ContributionsBacked(s, b.contributions, cast);
    ContributionsKeepSetup(s, b.contributions);
    var r := HandleContributions(s, b.contributions);
    ElectedHasWon(r.state, b.epoch + s.era + 1, change);
    hide HandleContributions, ApplyChange, UserContributions, HasWon, IsWanted, IsBacked;
    WinnerIsWanted(r.state, cast + VotesIn(b.contributions), change);
  }

  /** In every call, from any state of a new era on: whenever a batch begins or completes a change
      that the votes ask for, more than `f` of the validators have signed votes for it in this
      era, which are in this batch or the ones before. No proposer can add to them. */
  lemma ElectionsAreSigned(s: State, bs: seq<HbBatch>, k: nat, change: Change)
    requires s.committed == map[] && ProcessOutput(s, bs).error.None? && k < |bs|
    requires |ProcessOutput(s, bs).batches| == |bs| && IsElected(ProcessOutput(s, bs).batches[k], change)
    ensures var t := After(s, bs, k);
            IsWanted(t.net.keys, t.era, change, Cast(bs[..k + 1]))
  {
    hide ProcessBatch, ProcessOutput, IsElected, IsWanted, After, VotesIn;
    AllComeOut(s, bs, k);
    var t := After(s, bs, k);
    assert IsBacked(s, {});
    assert IsBacked(t, Cast(bs[..k])) by {
      BackedAfter(s, bs, k);
    }
    BatchIsWanted(t, bs[k], Cast(bs[..k]), change);
    assert Cast(bs[..k]) + VotesIn(bs[k].contributions) == Cast(bs[..k + 1]) by {
      LastCast(bs, k);
    }
  }

  lemma BackedAfter(s: State, bs: seq<HbBatch>, k: nat)
    requires s.committed == map[] && k <= |bs|
    ensures IsBacked(After(s, bs, k), Cast(bs[..k]))
  {
    hide ProcessOutput, Cast;
    OutputBacked(s, bs[..k], {});
    assert {} + Cast(bs[..k]) == Cast(bs[..k]);
  }

  lemma LastCast(bs: seq<HbBatch>, k: nat)
    requires k < |bs|
    ensures Cast(bs[..k]) + VotesIn(bs[k].contributions) == Cast(bs[..k + 1])
  {
    hide VotesIn;
    var more := bs[..k + 1];
    assert more[k] == bs[k] && more[..k] == bs[..k];
    forall sv | sv in Cast(bs[..k]) ensures sv in Cast(more) {
      var i :| 0 <= i < k && sv in VotesIn(bs[..k][i].contributions);
      assert more[i] == bs[..k][i];
    }
    forall sv | sv in Cast(more) ensures sv in Cast(bs[..k]) + VotesIn(bs[k].contributions) {
      var i :| 0 <= i <= k && sv in VotesIn(more[i].contributions);
      if i < k {
        assert more[i] == bs[..k][i];
      }
    }
  }

  // ----- User contributions -----

  predicate HasProposer(cs: seq<(nat, InternalContrib)>, p: nat) {
    exists i :: 0 <= i < |cs| && cs[i].0 == p
  }

  /** The contribution number `i` of a batch is the last one of its proposer. */
  predicate IsLastOf(cs: seq<(nat, InternalContrib)>, i: nat) {
    i < |cs| && forall j :: i < j < |cs| ==> cs[j].0 != cs[i].0
  }

  /** These are the contributions of exactly these proposers, as they proposed them. */
  ghost predicate Carries(us: map<nat, nat>, cs: seq<(nat, InternalContrib)>) {
    && (forall p :: p in us <==> HasProposer(cs, p))
    && (forall i :: 0 <= i < |cs| && IsLastOf(cs, i) ==> cs[i].0 in us && us[cs[i].0] == cs[i].1.contrib)
  }

  lemma {:induction false} AllContribute(cs: seq<(nat, InternalContrib)>)
    ensures Carries(UserContributions(cs), cs)
    decreases |cs|
  {
    if cs == [] {
      assert Carries(map[], []);
    } else {
      hide Carries;
      var before, c := cs[..|cs| - 1], cs[|cs| - 1];
      assert UserContributions(cs) == UserContributions(before)[c.0 := c.1.contrib];
      hide UserContributions;
      AllContribute(before);
      OneMoreContributes(UserContributions(before), before, c);
      assert cs == before + [c];
    }
  }

  lemma OneMoreContributes(us: map<nat, nat>, cs: seq<(nat, InternalContrib)>, c: (nat, InternalContrib))
    requires Carries(us, cs)
    ensures Carries(us[c.0 := c.1.contrib], cs + [c])
  {
    hide IsLastOf;
    var us', cs' := us[c.0 := c.1.contrib], cs + [c];
    forall p ensures p in us' <==> HasProposer(cs', p) {
      MoreProposers(cs, c, p);
    }
    forall i | 0 <= i < |cs'| && IsLastOf(cs', i) ensures cs'[i].0 in us' && us'[cs'[i].0] == cs'[i].1.contrib {
      if i < |cs| {
        LastBefore(cs, c, i);
      }
    }
  }

  lemma MoreProposers(cs: seq<(nat, InternalContrib)>, c: (nat, InternalContrib), p: nat)
    ensures HasProposer(cs + [c], p) <==> HasProposer(cs, p) || p == c.0
  {
    if HasProposer(cs, p) {
      var i :| 0 <= i < |cs| && cs[i].0 == p;
      assert (cs + [c])[i].0 == p;
    }
    assert (cs + [c])[|cs|] == c;
  }

  lemma LastBefore(cs: seq<(nat, InternalContrib)>, c: (nat, InternalContrib), i: nat)
    requires i < |cs| && IsLastOf(cs + [c], i)
    ensures IsLastOf(cs, i) && c.0 != cs[i].0
  {
    assert (cs + [c])[|cs|] == c && (cs + [c])[i] == cs[i];
    forall j | i < j < |cs| ensures cs[j].0 != cs[i].0 {
      assert (cs + [c])[j] == cs[j];
    }
  }

  lemma BatchCarries(s: State, b: HbBatch)
    requires ProcessBatch(s, b).Output?
    ensures Carries(ProcessBatch(s, b).batch.contributions, b.contributions)
  {
    hide HandleContributions, ApplyChange, UserContributions, Carries;
    AllContribute(b.contributions);
  }

  /** Every batch of a call that does not fail has the contributions of exactly the proposers of
      the batch of Honey Badger that it stands for, as they proposed them. */
  lemma CallCarries(s: State, bs: seq<HbBatch>, k: nat)
    requires ProcessOutput(s, bs).error.None? && k < |bs|
    ensures |ProcessOutput(s, bs).batches| == |bs|
    ensures Carries(ProcessOutput(s, bs).batches[k].contributions, bs[k].contributions)
    ensures (forall i, j :: 0 <= i < j < |bs[k].contributions| ==> bs[k].contributions[i].0 != bs[k].contributions[j].0)
            ==> forall i :: 0 <= i < |bs[k].contributions| ==>
                  var (p, c) := bs[k].contributions[i];
                  var us := ProcessOutput(s, bs).batches[k].contributions;
                  p in us && us[p] == c.contrib
  {
    hide ProcessBatch, ProcessOutput, After;
    AllComeOut(s, bs, k);
    BatchCarries(After(s, bs, k), bs[k]);
    var cs := bs[k].contributions;
    if forall i, j :: 0 <= i < j < |cs| ==> cs[i].0 != cs[j].0 {
      forall i | 0 <= i < |cs| ensures IsLastOf(cs, i) {
      }
    }
  }
}
