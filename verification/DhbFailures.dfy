/** When a call to Dynamic Honey Badger fails. Then none of the batches that it handles is ever
    output, with all their user contributions. */
module DhbFailures {
  import opened Options
  import opened Orders
  import opened Quorums
  import opened VotesSpec
  import opened DhbSpec
  import opened DhbReplication
  import Skg = SyncKeyGenSpec

  predicate IsCommitted(cs: seq<(nat, InternalContrib)>, m: SignedKeyGenMsg) {
    exists i :: 0 <= i < |cs| && m in cs[i].1.keyGenMessages
  }

  /** The message counts, since a validator has signed it, but that validator is not one of
      the new ones. */
  predicate IsFromLeaver(s: State, m: SignedKeyGenMsg) {
    && m.era == s.era && s.keyGen.Some?
    && m.sender in s.net.keys && m.sender !in s.keyGen.value.keys
    && m.sig == KeyGenSignature(s.net.keys[m.sender], m.msg)
  }

  lemma SignedFailsIff(s: State, m: SignedKeyGenMsg)
    ensures HandleSigned(s, m).error.Some? <==> IsFromLeaver(s, m)
  {
    hide Skg.HandlePart, Skg.HandleAck;
  }

  lemma SetupDecides(s: State, t: State, m: SignedKeyGenMsg)
    requires SameSetup(s, t)
    ensures IsFromLeaver(s, m) == IsFromLeaver(t, m)
  {
  }

  lemma {:induction false} AllSignedFailIff(s: State, ms: seq<SignedKeyGenMsg>)
    ensures HandleAllSigned(s, ms).error.Some? <==> exists m :: m in ms && IsFromLeaver(s, m)
    decreases |ms|
  {
    if ms != [] {
      hide HandleSigned, IsFromLeaver, SameSetup;
      var s1 := HandleSigned(s, ms[0]).state;
      SignedFailsIff(s, ms[0]);
      SignedKeepsSetup(s, ms[0]);
      AllSignedFailIff(s1, ms[1..]);
      forall m ensures IsFromLeaver(s, m) == IsFromLeaver(s1, m) {
        SetupDecides(s, s1, m);
      }
      assert forall m :: m in ms <==> m == ms[0] || m in ms[1..];
    }
  }

  lemma ContributionFailsIff(s: State, c: InternalContrib)
    ensures HandleContribution(s, c).error.Some? <==> exists m :: m in c.keyGenMessages && IsFromLeaver(s, m)
    ensures SameSetup(s, HandleContribution(s, c).state)
  {
    hide HandleAllSigned, AddVotes;
    var s1 := s.(committed := AddVotes(s.net.keys, s.era, s.committed, c.votes));
    AllSignedFailIff(s1, c.keyGenMessages);
    AllSignedKeepSetup(s1, c.keyGenMessages);
    assert forall m :: IsFromLeaver(s, m) == IsFromLeaver(s1, m);
  }

  lemma {:induction false} ContributionsFailIff(s: State, cs: seq<(nat, InternalContrib)>)
    ensures HandleContributions(s, cs).error.Some? <==> exists m :: IsCommitted(cs, m) && IsFromLeaver(s, m)
    decreases |cs|
  {
    if cs != [] {
      hide HandleContribution, IsFromLeaver, SameSetup, IsCommitted;
      var s1 := HandleContribution(s, cs[0].1).state;
      ContributionFailsIff(s, cs[0].1);
      ContributionsFailIff(s1, cs[1..]);
      forall m ensures IsFromLeaver(s, m) == IsFromLeaver(s1, m) {
        SetupDecides(s, s1, m);
      }
      forall m ensures IsCommitted(cs, m) <==> m in cs[0].1.keyGenMessages || IsCommitted(cs[1..], m) {
        CommittedFirst(cs, m);
      }
    }
  }

  lemma CommittedFirst(cs: seq<(nat, InternalContrib)>, m: SignedKeyGenMsg)
    requires cs != []
    ensures IsCommitted(cs, m) <==> m in cs[0].1.keyGenMessages || IsCommitted(cs[1..], m)
  {
    if IsCommitted(cs, m) && m !in cs[0].1.keyGenMessages {
      var i :| 0 <= i < |cs| && m in cs[i].1.keyGenMessages;
      assert m in cs[1..][i - 1].1.keyGenMessages;
    }
    if IsCommitted(cs[1..], m) {
      var i :| 0 <= i < |cs[1..]| && m in cs[1..][i].1.keyGenMessages;
      assert m in cs[i + 1].1.keyGenMessages;
    }
  }

  /** Nothing is ready, and the votes ask for a network without validators. */
  predicate WantsNobody(s: State) {
    && !(s.keyGen.Some? && IsReady(s.net.ourId, s.keyGen.value))
    && ComputeWinner(s.committed, Threshold(s.net.keys)) == Some(NodeChange(map[]))
    && NewKeys(s.keyGen) != Some(map[])
  }

  lemma ChangeFailsIff(s: State, nextEra: nat)
    ensures ApplyChange(s, nextEra).error.Some? <==> WantsNobody(s)
  {
    hide IsReady, ComputeWinner, IntoNetworkInfo, Threshold;
    forall keys: map<nat, nat> ensures |keys| == 0 <==> keys == map[] {
      NoKeys(keys);
    }
  }

  lemma NoKeys(keys: map<nat, nat>)
    ensures |keys| == 0 <==> keys == map[]
  {
    assert |keys| == |keys.Keys|;
  }

  /** A contribution carries a key generation message that is signed by a validator which is
      about to leave, wherever in the batch it stands. */
  ghost predicate HasMessageOfLeaver(s: State, b: HbBatch) {
    exists m :: IsCommitted(b.contributions, m) && IsFromLeaver(s, m)
  }

  /** With the votes in the batch, there is a majority for an empty network. */
  predicate EndsWithNobody(s: State, b: HbBatch) {
    WantsNobody(HandleContributions(s, b.contributions).state)
  }

  lemma FailsWith(s: State, cs: seq<(nat, InternalContrib)>)
    ensures HandleContributions(s, cs).error.Some? ==> HandleContributions(s, cs).error == Some(UnknownSender)
    decreases |cs|
  {
    if cs != [] {
      var committed := AddVotes(s.net.keys, s.era, s.committed, cs[0].1.votes);
      AllSignedFailWith(s.(committed := committed), cs[0].1.keyGenMessages);
      FailsWith(HandleContribution(s, cs[0].1).state, cs[1..]);
    }
  }

  lemma AllSignedFailWith(s: State, ms: seq<SignedKeyGenMsg>)
    ensures HandleAllSigned(s, ms).error.Some? ==> HandleAllSigned(s, ms).error == Some(UnknownSender)
    decreases |ms|
  {
    if ms != [] {
      hide Skg.HandlePart, Skg.HandleAck;
      AllSignedFailWith(HandleSigned(s, ms[0]).state, ms[1..]);
    }
  }

  lemma ChangePanics(s: State, nextEra: nat)
    ensures ApplyChange(s, nextEra).error.Some? ==> ApplyChange(s, nextEra).error == Some(Panic)
  {
    hide IsReady, ComputeWinner, IntoNetworkInfo, Threshold;
  }

  /** Exactly when handling a batch fails with an error, and when it panics. */
  lemma BatchFailsIff(s: State, b: HbBatch)
    ensures var p := ProcessBatch(s, b);
            && (p.Failed? && p.error == UnknownSender <==> HasMessageOfLeaver(s, b))
            && (p.Failed? && p.error == Panic <==> !HasMessageOfLeaver(s, b) && EndsWithNobody(s, b))
  {
    hide HandleContributions, ApplyChange, WantsNobody, IsCommitted, IsFromLeaver, UserContributions;
    ContributionsFailIff(s, b.contributions);
    FailsWith(s, b.contributions);
    var r := HandleContributions(s, b.contributions);
    ChangeFailsIff(r.state, b.epoch + s.era + 1);
    ChangePanics(r.state, b.epoch + s.era + 1);
  }

  // ----- A call that is lost -----

  ghost predicate IsBad(s: State, b: HbBatch) {
    HasMessageOfLeaver(s, b) || EndsWithNobody(s, b)
  }

  /** The state that the first `k` batches of a call lead to. */
  function After(s: State, bs: seq<HbBatch>, k: nat): State
    requires k <= |bs|
  {
    ProcessOutput(s, bs[..k]).state
  }

  /** Batch `k` is the first bad one, in the state that the batches before it lead to. */
  ghost predicate BreaksAt(s: State, bs: seq<HbBatch>, k: nat) {
    && k < |bs| && IsBad(After(s, bs, k), bs[k])
    && forall i :: 0 <= i < k ==> !IsBad(After(s, bs, i), bs[i])
  }

  lemma BadIff(s: State, b: HbBatch)
    ensures ProcessBatch(s, b).Failed? <==> IsBad(s, b)
  {
    hide ProcessBatch, HasMessageOfLeaver, EndsWithNobody;
    BatchFailsIff(s, b);
  }

  lemma AfterFirst(s: State, bs: seq<HbBatch>, k: nat)
    requires bs != [] && ProcessBatch(s, bs[0]).Output? && 0 < k <= |bs|
    ensures After(s, bs, k) == After(ProcessBatch(s, bs[0]).state, bs[1..], k - 1)
  {
    hide ProcessBatch;
    assert bs[..k][1..] == bs[1..][..k - 1];
  }

  /** Some batch breaks the call exactly if the call fails. */
  lemma {:induction false} CallFailsIff(s: State, bs: seq<HbBatch>)
    ensures ProcessOutput(s, bs).error.Some? <==> exists k: nat :: BreaksAt(s, bs, k)
    decreases |bs|
  {
    hide ProcessBatch, IsBad;
    if bs != [] {
      assert After(s, bs, 0) == s;
      BadIff(s, bs[0]);
      var p := ProcessBatch(s, bs[0]);
      if p.Failed? {
        assert BreaksAt(s, bs, 0);
      } else {
        CallFailsIff(p.state, bs[1..]);
        forall k: nat ensures BreaksAt(s, bs, k) <==> k > 0 && BreaksAt(p.state, bs[1..], k - 1) {
          BreaksLater(s, bs, k);
        }
        if k: nat :| BreaksAt(p.state, bs[1..], k) {
          assert BreaksAt(s, bs, k + 1);
        }
      }
    }
  }

  lemma BreaksLater(s: State, bs: seq<HbBatch>, k: nat)
    requires bs != [] && ProcessBatch(s, bs[0]).Output?
    ensures BreaksAt(s, bs, k) <==> k > 0 && BreaksAt(ProcessBatch(s, bs[0]).state, bs[1..], k - 1)
  {
    hide ProcessBatch, IsBad, After;
    var t := ProcessBatch(s, bs[0]).state;
    assert After(s, bs, 0) == s by {
      NothingBefore(s, bs);
    }
    BadIff(s, bs[0]);
    forall i: nat | 0 < i <= |bs| ensures After(s, bs, i) == After(t, bs[1..], i - 1) {
      AfterFirst(s, bs, i);
    }
    if k > 0 && BreaksAt(t, bs[1..], k - 1) {
      forall i | 0 <= i < k ensures !IsBad(After(s, bs, i), bs[i]) {
        if i > 0 {
          assert bs[1..][i - 1] == bs[i];
        }
      }
    }
    if k > 0 && BreaksAt(s, bs, k) {
      forall i | 0 <= i < k - 1 ensures !IsBad(After(t, bs[1..], i), bs[1..][i]) {
        assert bs[1..][i] == bs[i + 1] && After(s, bs, i + 1) == After(t, bs[1..], i);
      }
    }
  }

  lemma NothingBefore(s: State, bs: seq<HbBatch>)
    ensures After(s, bs, 0) == s
  {
    assert bs[..0] == [];
  }

  /** Batch `k` of a call is output as `batch`, as if the batches before it were handled first. */
  predicate ComesOut(s: State, bs: seq<HbBatch>, k: nat, batch: Batch) {
    k < |bs| && ProcessBatch(After(s, bs, k), bs[k]) == Output(After(s, bs, k + 1), batch)
  }

  /** What comes out of a call that does not fail: every batch. */
  lemma {:induction false} AllComeOut(s: State, bs: seq<HbBatch>, k: nat)
    requires ProcessOutput(s, bs).error.None? && k < |bs|
    ensures |ProcessOutput(s, bs).batches| == |bs|
    ensures ComesOut(s, bs, k, ProcessOutput(s, bs).batches[k])
    decreases |bs|
  {
    hide ProcessBatch;
    var p := ProcessBatch(s, bs[0]);
    NothingBefore(s, bs);
    NothingBefore(p.state, bs[1..]);
    AfterFirst(s, bs, k + 1);
    if bs[1..] != [] {
      AllComeOut(p.state, bs[1..], if k == 0 then 0 else k - 1);
    }
    if k > 0 {
      AfterFirst(s, bs, k);
    }
  }

  /** Exactly when a call is lost, with all its batches: one of them contains a key generation
      message that counts and comes from a validator that is about to leave, or ends with a
      majority for an empty network, in the state that the batches before it lead to. Those
      after it are not even looked at. If there is none, every batch comes out. */
  lemma CallIsLostIff(s: State, bs: seq<HbBatch>)
    ensures var o := ProcessOutput(s, bs);
            && (o.error.Some? <==> exists k: nat :: BreaksAt(s, bs, k))
            && (o.error.Some? ==> o.batches == [])
            && (o.error.None? ==>
                  |o.batches| == |bs| && forall k :: 0 <= k < |bs| ==> ComesOut(s, bs, k, o.batches[k]))
  {
    hide ProcessBatch, After, ComesOut;
    CallFailsIff(s, bs);
    FailedIsEmpty(s, bs);
    var o := ProcessOutput(s, bs);
    if o.error.None? {
      forall k | 0 <= k < |bs| ensures ComesOut(s, bs, k, o.batches[k]) {
        AllComeOut(s, bs, k);
      }
    }
  }

  lemma {:induction false} FailedIsEmpty(s: State, bs: seq<HbBatch>)
    ensures ProcessOutput(s, bs).error.Some? ==> ProcessOutput(s, bs).batches == []
    ensures ProcessOutput(s, bs).error.None? ==> |ProcessOutput(s, bs).batches| == |bs|
    decreases |bs|
  {
    if bs != [] {
      hide ProcessBatch;
      FailedIsEmpty(ProcessBatch(s, bs[0]).state, bs[1..]);
    }
  }

  // ----- A batch that is lost -----

  function Agreed(keys: map<nat, nat>, voter: nat, change: Change): SignedVote
    requires voter in keys
  {
    var vote := Vote(change, 0, 0);
    SignedVote(vote, voter, VoteSignature(keys[voter], vote))
  }

  /** Four validators, without votes or key generation. */
  function FourValidators(): State {
    State(NetworkInfo(0, map[0 := 0, 1 := 1, 2 := 2, 3 := 3], [], None), 0, 0, map[], None)
  }

  /** Two of them vote to remove the last. */
  function RemovalBatch(): HbBatch {
    var keys, change := FourValidators().net.keys, NodeChange(map[0 := 0, 1 := 1, 2 := 2]);
    HbBatch(0, [(0, InternalContrib([Agreed(keys, 0, change), Agreed(keys, 1, change)], [], 5))])
  }

  /** A contribution of the first, with a part that the last has signed. */
  function LostBatch(epoch: nat, part: Skg.Part): HbBatch {
    var msg := PartMessage(part);
    HbBatch(epoch, [(0, InternalContrib([], [SignedKeyGenMsg(1, 3, msg, KeyGenSignature(3, msg))], 7))])
  }

  /** A contribution without votes or messages. */
  function QuietBatch(epoch: nat): HbBatch {
    HbBatch(epoch, [(0, InternalContrib([], [], 8))])
  }

  lemma RemovalVotes(s: State)
    requires s == FourValidators()
    ensures var r := HandleContributions(s, RemovalBatch().contributions);
            && r.error.None?
            && r.state == s.(committed := map[0 := Vote(NodeChange(map[0 := 0, 1 := 1, 2 := 2]), 0, 0),
                                              1 := Vote(NodeChange(map[0 := 0, 1 := 1, 2 := 2]), 0, 0)])
  {
    var cs := RemovalBatch().contributions;
    var votes := cs[0].1.votes;
    assert cs[1..] == [] && votes[1..] == [votes[1]] && votes[1..][1..] == [];
    var one := AddVote(s.net.keys, 0, map[], votes[0]);
    assert one == map[0 := votes[0].vote];
    assert AddVotes(s.net.keys, 0, one, votes[1..]) == AddVote(s.net.keys, 0, one, votes[1]);
  }

  /** Key generation for the first three has begun. */
  predicate IsRemoving(s: State) {
    && s.era == 1 && s.net == FourValidators().net && s.committed == map[]
    && s.keyGen == Some(KeyGenState(map[0 := 0, 1 := 1, 2 := 2], map[]))
  }

  lemma RemovalWins(s: State)
    requires s == FourValidators()
    ensures var p := ProcessBatch(s, RemovalBatch());
            p.Output? && IsRemoving(p.state)
  {
    hide HandleContributions, ComputeWinner, UserContributions, ApplyChange, Threshold;
    RemovalVotes(s);
    var keys := map[0 := 0, 1 := 1, 2 := 2];
    var t := HandleContributions(s, RemovalBatch().contributions).state;
    TwoElect(t.committed, NodeChange(keys));
    FourTolerateOne(s.net.keys);
    assert |keys| == 3;
    WinnerStarts(t, 1, keys);
  }

  lemma FourTolerateOne(keys: map<nat, nat>)
    requires keys == map[0 := 0, 1 := 1, 2 := 2, 3 := 3]
    ensures Threshold(keys) == 1
  {
    assert |keys| == 4;
  }

  /** Two votes for the same change elect it, in a network of four. */
  lemma TwoElect(committed: Committed, change: Change)
    requires committed.Keys == {0, 1} && forall id :: id in committed ==> committed[id].change == change
    ensures ComputeWinner(committed, 1) == Some(change)
  {
    hide ComputeWinner;
    assert VotersFor(committed, committed.Keys, change) == {0, 1};
    WinnerIff(committed, 1);
  }

  /** The key generation for elected validators begins, in a new era. */
  lemma WinnerStarts(s: State, era: nat, keys: map<nat, nat>)
    requires s.keyGen.None? && |keys| > 0
    requires ComputeWinner(s.committed, Threshold(s.net.keys)) == Some(NodeChange(keys))
    ensures ApplyChange(s, era)
            == Changed(s.(era := era, committed := map[], keyGen := Some(KeyGenState(keys, map[]))),
                       InProgress(NodeChange(keys)), None)
  {
    hide ComputeWinner, Threshold;
  }

  lemma LosesPart(s: State, epoch: nat, part: Skg.Part)
    requires IsRemoving(s)
    ensures ProcessBatch(s, LostBatch(epoch, part)) == Failed(s, UnknownSender)
  {
    hide ApplyChange;
    var cs := LostBatch(epoch, part).contributions;
    var s1 := s.(committed := AddVotes(s.net.keys, s.era, s.committed, cs[0].1.votes));
    assert s1 == s;
    assert HandleSigned(s1, cs[0].1.keyGenMessages[0]) == Handled(s1, Some(UnknownSender));
    assert HandleContribution(s, cs[0].1) == Handled(s, Some(UnknownSender));
  }

  lemma QuietIsFine(s: State, epoch: nat)
    requires IsRemoving(s)
    ensures ProcessBatch(s, QuietBatch(epoch)).Output? && ProcessBatch(s, QuietBatch(epoch)).state == s
  {
    hide ComputeWinner, UserContributions, IntoNetworkInfo;
    var cs := QuietBatch(epoch).contributions;
    assert s.(committed := AddVotes(s.net.keys, s.era, s.committed, cs[0].1.votes)) == s;
    assert HandleContribution(s, cs[0].1) == Handled(s, None);
    assert cs[1..] == [];
    assert HandleContributions(s, cs) == Handled(s, None);
    assert |s.net.keys| == 4 && |s.keyGen.value.keys| == 3;
    assert Skg.CompleteParts(map[], 0) == {};
    WinnerIff(s.committed, 1);
    assert forall c :: VotersFor(s.committed, s.committed.Keys, c) == {};
  }

  /** A batch with a part that the leaving validator has signed is lost, and so is a good batch
      that the same call handles, be it before or after. In calls of its own, the good batch
      comes out. */
  lemma WhenRemoving(s: State, part: Skg.Part)
    requires IsRemoving(s)
    ensures Run(s, [[LostBatch(0, part)]]).1 == []
    ensures Run(s, [[QuietBatch(0), LostBatch(1, part)]]).1 == []
    ensures Run(s, [[LostBatch(0, part), QuietBatch(1)]]).1 == []
    ensures |Run(s, [[QuietBatch(0)], [LostBatch(1, part)]]).1| == 1
    ensures |Run(s, [[LostBatch(0, part)], [QuietBatch(1)]]).1| == 1
  {
    hide ProcessBatch, LostBatch, QuietBatch, ProcessOutput, Run, IsRemoving;
    LosesPart(s, 0, part);
    LosesPart(s, 1, part);
    QuietIsFine(s, 0);
    QuietIsFine(s, 1);
    OneBatch(s, LostBatch(0, part));
    OneBatch(s, LostBatch(1, part));
    OneBatch(s, QuietBatch(0));
    OneBatch(s, QuietBatch(1));
    TwoBatches(s, QuietBatch(0), LostBatch(1, part));
    TwoBatches(s, LostBatch(0, part), QuietBatch(1));
    OneCall(s, [LostBatch(0, part)]);
    OneCall(s, [QuietBatch(0), LostBatch(1, part)]);
    OneCall(s, [LostBatch(0, part), QuietBatch(1)]);
    TwoCalls(s, [QuietBatch(0)], [LostBatch(1, part)]);
    TwoCalls(s, [LostBatch(0, part)], [QuietBatch(1)]);
  }

  /** This can happen: four validators agree to remove one of them, which restarts Honey Badger
      in era 1. From then on such batches are lost, with the contributions in them and in the
      other batches of their calls. */
  lemma BatchesAreLost(part: Skg.Part)
    ensures var o := ProcessOutput(FourValidators(), [RemovalBatch()]);
            && o.error.None? && |o.batches| == 1 && IsRemoving(o.state)
            && Run(o.state, [[LostBatch(0, part)]]).1 == []
            && Run(o.state, [[QuietBatch(0), LostBatch(1, part)]]).1 == []
            && Run(o.state, [[LostBatch(0, part), QuietBatch(1)]]).1 == []
    ensures UserContributions(LostBatch(0, part).contributions) == map[0 := 7]
    ensures UserContributions(QuietBatch(0).contributions) == map[0 := 8]
  {
    assert LostBatch(0, part).contributions[..0] == [] == QuietBatch(0).contributions[..0];
    hide ProcessBatch, RemovalBatch, LostBatch, QuietBatch, ProcessOutput, Run, IsRemoving;
    RemovalWins(FourValidators());
    OneBatch(FourValidators(), RemovalBatch());
    WhenRemoving(ProcessBatch(FourValidators(), RemovalBatch()).state, part);
  }

  lemma OneBatch(s: State, b: HbBatch)
    ensures ProcessOutput(s, [b])
            == match ProcessBatch(s, b)
               case Output(t, out) => Outcome(t, [out], None)
               case Failed(t, e) => Outcome(t, [], Some(e))
  {
    hide ProcessBatch;
    assert [b][1..] == [];
  }

  lemma TwoBatches(s: State, b: HbBatch, c: HbBatch)
    ensures ProcessBatch(s, b).Failed? ==>
              ProcessOutput(s, [b, c]) == Outcome(ProcessBatch(s, b).state, [], Some(ProcessBatch(s, b).error))
    ensures ProcessBatch(s, b).Output? && ProcessBatch(ProcessBatch(s, b).state, c).Failed? ==>
              var p := ProcessBatch(ProcessBatch(s, b).state, c);
              ProcessOutput(s, [b, c]) == Outcome(p.state, [], Some(p.error))
  {
    hide ProcessBatch;
    assert [b, c][1..] == [c];
    OneBatch(ProcessBatch(s, b).state, c);
  }

  lemma OneCall(s: State, bs: seq<HbBatch>)
    requires ProcessOutput(s, bs).error != Some(Panic)
    ensures Run(s, [bs]).1 == ProcessOutput(s, bs).batches
  {
    hide ProcessOutput;
    assert [bs][1..] == [];
  }

  lemma TwoCalls(s: State, bs: seq<HbBatch>, cs: seq<HbBatch>)
    requires ProcessOutput(s, bs).error != Some(Panic)
    requires ProcessOutput(ProcessOutput(s, bs).state, cs).error != Some(Panic)
    ensures Run(s, [bs, cs]).1 == ProcessOutput(s, bs).batches + ProcessOutput(ProcessOutput(s, bs).state, cs).batches
  {
    hide ProcessOutput;
    assert [bs, cs][1..] == [cs];
    OneCall(ProcessOutput(s, bs).state, cs);
  }
}
