/** Replicated determinism: what two nodes make of the same batches is the same. */
module DhbReplication {
  import opened Options
  import opened Polynomials
  import opened VotesSpec
  import opened DhbSpec
  import Skg = SyncKeyGenSpec
  import KeyShares

  // ----- Equality in public -----

  ghost predicate SameNet(a: NetworkInfo, b: NetworkInfo) {
    a.keys == b.keys && a.pkSet == b.pkSet
  }

  ghost predicate SameKeyGen(a: Option<KeyGenState>, b: Option<KeyGenState>) {
    match (a, b)
    case (None, None) => true
    case (Some(k), Some(l)) => k.keys == l.keys && KeyShares.SamePublic(k.parts, l.parts)
    case _ => false
  }

  /** Equal except for who the nodes are, their secrets, and what only they can read. */
  ghost predicate SameState(a: State, b: State) {
    && SameNet(a.net, b.net)
    && a.era == b.era && a.schedule == b.schedule && a.committed == b.committed
    && SameKeyGen(a.keyGen, b.keyGen)
  }

  /** The equality of the code for batches. */
  ghost predicate PublicEq(a: Batch, b: Batch) {
    && a.epoch == b.epoch && a.era == b.era && a.contributions == b.contributions && a.change == b.change
    && SameNet(a.net, b.net) && a.schedule == b.schedule
  }

  // ----- Every step keeps it -----

  lemma KeyGenSame(a: State, b: State, sender: nat, msg: KeyGenMessage)
    requires SameState(a, b)
    ensures var r, t := HandleKeyGen(a, sender, msg), HandleKeyGen(b, sender, msg);
            SameState(r.state, t.state) && r.error == t.error
  {
    if a.keyGen.Some? {
      hide Skg.HandlePart, Skg.HandleAck;
      var keys := a.keyGen.value.keys;
      var idx := NodeIndex(keys, sender);
      if idx.Some? {
        var e := match msg
          case PartMessage(part) => KeyShares.PartEntry(idx.value, part)
          case AckMessage(ack) => KeyShares.AckEntry(idx.value, ack);
        KeyShares.HandleSamePublic(KeyGenConfig(a.net.ourId, keys), KeyGenConfig(b.net.ourId, keys),
                                   a.keyGen.value.parts, b.keyGen.value.parts, e);
      }
    }
  }

  lemma SignedSame(a: State, b: State, m: SignedKeyGenMsg)
    requires SameState(a, b)
    ensures var r, t := HandleSigned(a, m), HandleSigned(b, m);
            SameState(r.state, t.state) && r.error == t.error
  {
    hide HandleKeyGen, KeyShares.SamePublic;
    KeyGenSame(a, b, m.sender, m.msg);
  }

  lemma {:induction false} AllSignedSame(a: State, b: State, ms: seq<SignedKeyGenMsg>)
    requires SameState(a, b)
    ensures var r, t := HandleAllSigned(a, ms), HandleAllSigned(b, ms);
            SameState(r.state, t.state) && r.error == t.error
    decreases |ms|
  {
    if ms != [] {
      hide HandleSigned, SameState;
      SignedSame(a, b, ms[0]);
      AllSignedSame(HandleSigned(a, ms[0]).state, HandleSigned(b, ms[0]).state, ms[1..]);
    }
  }

  lemma ContributionSame(a: State, b: State, c: InternalContrib)
    requires SameState(a, b)
    ensures var r, t := HandleContribution(a, c), HandleContribution(b, c);
            SameState(r.state, t.state) && r.error == t.error
  {
    hide HandleAllSigned, AddVotes, SameKeyGen;
    AllSignedSame(a.(committed := AddVotes(a.net.keys, a.era, a.committed, c.votes)),
                  b.(committed := AddVotes(b.net.keys, b.era, b.committed, c.votes)), c.keyGenMessages);
  }

  lemma {:induction false} ContributionsSame(a: State, b: State, cs: seq<(nat, InternalContrib)>)
    requires SameState(a, b)
    ensures var r, t := HandleContributions(a, cs), HandleContributions(b, cs);
            SameState(r.state, t.state) && r.error == t.error
    decreases |cs|
  {
    if cs != [] {
      hide HandleContribution, SameState;
      ContributionSame(a, b, cs[0].1);
      ContributionsSame(HandleContribution(a, cs[0].1).state, HandleContribution(b, cs[0].1).state, cs[1..]);
    }
  }

  lemma ReadySame(a: State, b: State)
    requires SameState(a, b) && a.keyGen.Some?
    ensures IsReady(a.net.ourId, a.keyGen.value) == IsReady(b.net.ourId, b.keyGen.value)
    ensures SameNet(IntoNetworkInfo(a.net.ourId, a.keyGen.value), IntoNetworkInfo(b.net.ourId, b.keyGen.value))
  {
    hide Skg.PublicPoly, Skg.SecretShare, KeyShares.SamePublic, Skg.CompleteParts;
    var k, l := a.keyGen.value, b.keyGen.value;
    KeyShares.SamePublicPoly(k.parts, l.parts, Threshold(k.keys), |k.keys|);
  }

  lemma ChangeSame(a: State, b: State, nextEra: nat)
    requires SameState(a, b)
    ensures var c, d := ApplyChange(a, nextEra), ApplyChange(b, nextEra);
            SameState(c.state, d.state) && c.change == d.change && c.error == d.error
  {
    hide IsReady, IntoNetworkInfo, ComputeWinner;
    if a.keyGen.Some? {
      ReadySame(a, b);
    }
    KeyShares.EmptySamePublic();
    KeysInForce(a.net.ourId, a.keyGen);
    KeysInForce(b.net.ourId, b.keyGen);
    hide KeyShares.SamePublic;
  }

  lemma KeysInForce(ourId: nat, keyGen: Option<KeyGenState>)
    ensures keyGen.Some? ==> IntoNetworkInfo(ourId, keyGen.value).keys == keyGen.value.keys
  {
    hide Skg.PublicPoly, Skg.SecretShare;
  }

  lemma BatchSame(a: State, b: State, batch: HbBatch)
    requires SameState(a, b)
    ensures var p, q := ProcessBatch(a, batch), ProcessBatch(b, batch);
            && p.Output? == q.Output? && SameState(p.state, q.state)
            && (p.Output? ==> PublicEq(p.batch, q.batch))
            && (p.Failed? ==> p.error == q.error)
  {
    hide HandleContributions, ApplyChange, SameKeyGen;
    ContributionsSame(a, b, batch.contributions);
    var r, t := HandleContributions(a, batch.contributions), HandleContributions(b, batch.contributions);
    ChangeSame(r.state, t.state, batch.epoch + a.era + 1);
  }

  ghost predicate PairwiseEq(a: seq<Batch>, b: seq<Batch>) {
    |a| == |b| && forall i :: 0 <= i < |a| ==> PublicEq(a[i], b[i])
  }

  lemma PairwiseJoin(a: seq<Batch>, b: seq<Batch>, c: seq<Batch>, d: seq<Batch>)
    requires PairwiseEq(a, b) && PairwiseEq(c, d)
    ensures PairwiseEq(a + c, b + d)
  {
    hide PublicEq;
    forall i | 0 <= i < |a + c| ensures PublicEq((a + c)[i], (b + d)[i]) {
      if i >= |a| {
        assert PublicEq(c[i - |a|], d[i - |a|]);
      }
    }
  }

  lemma PairwiseOne(a: Batch, b: Batch)
    requires PublicEq(a, b)
    ensures PairwiseEq([a], [b])
  {
    hide PublicEq;
  }

  lemma PairwiseNone()
    ensures PairwiseEq([], [])
  {
  }

  lemma {:induction false} OutputSame(a: State, b: State, bs: seq<HbBatch>)
    requires SameState(a, b)
    ensures var o, p := ProcessOutput(a, bs), ProcessOutput(b, bs);
            SameState(o.state, p.state) && o.error == p.error && PairwiseEq(o.batches, p.batches)
    decreases |bs|
  {
    hide ProcessBatch, SameState, PublicEq, PairwiseEq;
    if bs == [] {
      PairwiseNone();
    } else {
      BatchSame(a, b, bs[0]);
      var p, q := ProcessBatch(a, bs[0]), ProcessBatch(b, bs[0]);
      PairwiseNone();
      if p.Output? {
        OutputSame(p.state, q.state, bs[1..]);
        PairwiseOne(p.batch, q.batch);
        PairwiseJoin(
          [p.batch], [q.batch], ProcessOutput(p.state, bs[1..]).batches, ProcessOutput(q.state, bs[1..]).batches);
      }
    }
  }

  // ----- Runs -----

  /** All batches that a node outputs when its calls process these steps of the inner Honey
      Badger, one after the other. A panic is the end. */
  function Run(s: State, steps: seq<seq<HbBatch>>): (State, seq<Batch>)
    decreases |steps|
  {
    if steps == [] then (s, [])
    else
      var o := ProcessOutput(s, steps[0]);
      if o.error == Some(Panic) then (o.state, [])
      else
        var (s1, rest) := Run(o.state, steps[1..]);
        (s1, o.batches + rest)
  }

  /** Nodes that start from the same public state and are fed the same batches stay equal in
      public, and their batches are pairwise equal, whoever they are and whatever secrets
      they have, validators or observers; if they handle them in the same calls. */
  lemma {:induction false} ReplicatedDeterminism(a: State, b: State, steps: seq<seq<HbBatch>>)
    requires SameState(a, b)
    ensures var (s, bs) := Run(a, steps);
            var (t, cs) := Run(b, steps);
            SameState(s, t) && PairwiseEq(bs, cs)
    decreases |steps|
  {
    hide ProcessOutput, SameState, PairwiseEq;
    PairwiseNone();
    if steps != [] {
      OutputSame(a, b, steps[0]);
      var o, p := ProcessOutput(a, steps[0]), ProcessOutput(b, steps[0]);
      ReplicatedDeterminism(o.state, p.state, steps[1..]);
      PairwiseJoin(o.batches, p.batches, Run(o.state, steps[1..]).1, Run(p.state, steps[1..]).1);
    }
  }

  /** If the first batches of a call do not fail, it goes on as if they had been a call. */
  lemma {:induction false} CallContinues(s: State, bs: seq<HbBatch>, cs: seq<HbBatch>)
    requires ProcessOutput(s, bs).error.None?
    ensures var o := ProcessOutput(s, bs);
            ProcessOutput(s, bs + cs) == Continued(o.batches, ProcessOutput(o.state, cs))
    decreases |bs|
  {
    hide ProcessOutput, ProcessBatch;
    if bs == [] {
      assert bs + cs == cs;
      CallOfNone(s);
      ContinuedTwice([], [], ProcessOutput(s, cs));
    } else {
      assert (bs + cs)[1..] == bs[1..] + cs;
      CallStarts(s, bs);
      CallStarts(s, bs + cs);
      var first := ProcessBatch(s, bs[0]);
      var o := ProcessOutput(first.state, bs[1..]);
      CallContinues(first.state, bs[1..], cs);
      ContinuedTwice([first.batch], o.batches, ProcessOutput(o.state, cs));
    }
  }

  /** What a call returns that has these batches already. */
  function Continued(done: seq<Batch>, rest: Outcome): Outcome {
    if rest.error.Some? then rest else Outcome(rest.state, done + rest.batches, None)
  }

  lemma ContinuedTwice(a: seq<Batch>, b: seq<Batch>, rest: Outcome)
    ensures Continued(a, Continued(b, rest)) == Continued(a + b, rest) && Continued([], rest) == rest
  {
    assert a + (b + rest.batches) == (a + b) + rest.batches;
    assert [] + rest.batches == rest.batches;
  }

  lemma CallOfNone(s: State)
    ensures ProcessOutput(s, []) == Outcome(s, [], None)
  {
  }

  lemma CallStarts(s: State, bs: seq<HbBatch>)
    requires bs != []
    ensures var first, o := ProcessBatch(s, bs[0]), ProcessOutput(s, bs);
            if first.Failed? then o.error.Some?
            else o == Continued([first.batch], ProcessOutput(first.state, bs[1..]))
  {
    hide ProcessBatch;
  }

  /** The validators and the public keys of the outputs are those of the state. */
  lemma {:induction false} BatchEpochs(s: State, b: HbBatch)
    requires ProcessBatch(s, b).Output?
    ensures var p := ProcessBatch(s, b);
            && p.batch.epoch == p.batch.era + b.epoch
            && p.batch.net == p.state.net && p.batch.schedule == p.state.schedule
            && (p.state.schedule != s.schedule ==> p.batch.change == Completed(EncryptionSchedule(p.state.schedule)))
            && (p.state.era != s.era ==> p.state.era == p.batch.epoch + 1 && p.state.committed == map[])
            && (p.batch.change.NoChange? ==> p.state.era == s.era && p.state.net == s.net)
  {
    hide IsReady, IntoNetworkInfo, ComputeWinner;
    ContributionsKeepSetup(s, b.contributions);
    hide HandleContributions;
  }

  /** Whom a key generation is for. */
  function NewKeys(keyGen: Option<KeyGenState>): Option<map<nat, nat>> {
    if keyGen.Some? then Some(keyGen.value.keys) else None
  }

  /** All but the votes and the progress of the key generation. */
  ghost predicate SameSetup(s: State, t: State) {
    && t.net == s.net && t.era == s.era && t.schedule == s.schedule
    && NewKeys(t.keyGen) == NewKeys(s.keyGen)
  }

  lemma {:induction false} ContributionsKeepSetup(s: State, cs: seq<(nat, InternalContrib)>)
    ensures SameSetup(s, HandleContributions(s, cs).state)
    decreases |cs|
  {
    if cs != [] {
      var s1 := s.(committed := AddVotes(s.net.keys, s.era, s.committed, cs[0].1.votes));
      AllSignedKeepSetup(s1, cs[0].1.keyGenMessages);
      ContributionsKeepSetup(HandleContribution(s, cs[0].1).state, cs[1..]);
    }
  }

  lemma {:induction false} AllSignedKeepSetup(s: State, ms: seq<SignedKeyGenMsg>)
    ensures SameSetup(s, HandleAllSigned(s, ms).state)
    decreases |ms|
  {
    if ms != [] {
      hide HandleSigned;
      SignedKeepsSetup(s, ms[0]);
      AllSignedKeepSetup(HandleSigned(s, ms[0]).state, ms[1..]);
    }
  }

  lemma SignedKeepsSetup(s: State, m: SignedKeyGenMsg)
    ensures SameSetup(s, HandleSigned(s, m).state)
  {
    hide Skg.HandlePart, Skg.HandleAck, NodeIndex;
  }

  // ----- What a change means -----

  ghost predicate HasWon(committed: Committed, c: Change, keys: map<nat, nat>) {
    |VotersFor(committed, committed.Keys, c)| > Threshold(keys)
  }

  /** The change that a batch reports is what has happened: nothing has won; a key generation
      for the winner is running, and goes on if it was running before; or the change that was
      ready, or needs no keys, is in force. */
  lemma ChangeMeans(s: State, nextEra: nat)
    requires ApplyChange(s, nextEra).error.None?
    ensures var c := ApplyChange(s, nextEra);
            match c.change
            case NoChange => c.state == s && forall x :: !HasWon(s.committed, x, s.net.keys)
            case InProgress(x) =>
              && x.NodeChange? && HasWon(s.committed, x, s.net.keys) && c.state.net == s.net
              && c.state.keyGen.Some? && c.state.keyGen.value.keys == x.keys
              && (if s.keyGen.Some? && s.keyGen.value.keys == x.keys then c.state == s
                  else c.state.keyGen.value.parts == map[] && c.state.era == nextEra && c.state.committed == map[])
            case Completed(NodeChange(keys)) =>
              && s.keyGen.Some? && s.keyGen.value.keys == keys && IsReady(s.net.ourId, s.keyGen.value)
              && c.state.net == IntoNetworkInfo(s.net.ourId, s.keyGen.value) && c.state.net.keys == keys
              && c.state.keyGen == None && c.state.era == nextEra && c.state.committed == map[]
            case Completed(EncryptionSchedule(schedule)) =>
              && HasWon(s.committed, EncryptionSchedule(schedule), s.net.keys) && c.state.schedule == schedule
              && c.state.net == s.net && c.state.keyGen == s.keyGen
              && c.state.era == nextEra && c.state.committed == map[]
  {
    hide IsReady, IntoNetworkInfo, ComputeWinner, Threshold;
    KeysInForce(s.net.ourId, s.keyGen);
    WinnerIff(s.committed, Threshold(s.net.keys));
  }
}
