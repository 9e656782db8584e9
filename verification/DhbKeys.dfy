/** The keys of the new validators: key generation messages that are committed in batches form
    one log for all nodes, and the keys that come out of it fit together. */
module DhbKeys {
  import opened Options
  import opened Polynomials
  import opened Quorums
  import opened VotesSpec
  import opened DhbSpec
  import opened DhbReplication
  import Skg = SyncKeyGenSpec
  import KeyShares

  /** The entry of the shared log that a key generation message stands for. */
  function EntryOf(keys: map<nat, nat>, sender: nat, msg: KeyGenMessage): KeyShares.Entry
    requires sender in keys
  {
    match msg
    case PartMessage(part) => KeyShares.PartEntry(NodeIndex(keys, sender).value, part)
    case AckMessage(ack) => KeyShares.AckEntry(NodeIndex(keys, sender).value, ack)
  }

  /** The parts of this key generation are those of the log. */
  ghost predicate HasReplayed(ourId: nat, kgs: KeyGenState, log: seq<KeyShares.Entry>) {
    kgs.parts == KeyShares.Replay(KeyGenConfig(ourId, kgs.keys), log)
  }

  /** Messages that are handled extend the log, for all nodes by the same entry. */
  lemma HandleKeyGenReplays(s: State, log: seq<KeyShares.Entry>, sender: nat, msg: KeyGenMessage)
    requires s.keyGen.Some? && HasReplayed(s.net.ourId, s.keyGen.value, log)
    requires HandleKeyGen(s, sender, msg).error.None?
    ensures sender in s.keyGen.value.keys
    ensures var s1 := HandleKeyGen(s, sender, msg).state;
            && s1.keyGen.Some? && s1.keyGen.value.keys == s.keyGen.value.keys
            && HasReplayed(s1.net.ourId, s1.keyGen.value, log + [EntryOf(s.keyGen.value.keys, sender, msg)])
  {
    hide Skg.HandlePart, Skg.HandleAck;
    var entry := EntryOf(s.keyGen.value.keys, sender, msg);
    assert (log + [entry])[..|log|] == log;
  }

  /** When a key generation is applied, the new share of every new validator matches the new
      public key set, which is the same for all. */
  lemma KeysMatch(sys: KeyShares.System, ourId: nat, kgs: KeyGenState, log: seq<KeyShares.Entry>)
    requires HasReplayed(ourId, kgs, log) && ourId in kgs.keys
    requires sys.Valid() && sys.n == |kgs.keys| && sys.threshold == Threshold(kgs.keys)
    requires KeyShares.IsLog(sys, log)
    requires KeyShares.AllLow(kgs.parts, sys.n, sys.threshold)
    ensures var net := IntoNetworkInfo(ourId, kgs);
            var idx := NodeIndex(kgs.keys, ourId).value;
            && net.skShare == Some(Eval(net.pkSet, Skg.Point(idx)))
            && net.pkSet == KeyShares.PublicKey(sys, log)
  {
    hide KeyShares.Replay, KeyShares.IsLog, Skg.SecretShare, Skg.PublicPoly, Eval, Threshold;
    IndexInRange(kgs.keys, ourId);
    var idx := NodeIndex(kgs.keys, ourId).value;
    assert sys.Node(idx) == KeyGenConfig(ourId, kgs.keys);
    KeyShares.PublicAgreement(sys.Node(idx), Skg.Config(sys.n, None, sys.threshold), log, sys.n);
    KeyShares.ShareOnPublicPoly(sys, log, idx, sys.n);
  }

  /** Indices are positions: they follow the order of the nodes, and no two nodes share one. */
  lemma IndicesAreOrdered(keys: map<nat, nat>, a: nat, b: nat)
    requires a in keys && b in keys && a < b
    ensures NodeIndex(keys, a).Some? && NodeIndex(keys, b).Some?
    ensures NodeIndex(keys, a).value < NodeIndex(keys, b).value < |keys|
  {
    var below, more := set k | k in keys && k < a, set k | k in keys && k < b;
    SubsetSize(below + {a}, more);
    IndexInRange(keys, b);
  }

  /** A key generation ends exactly when the parts of more than two thirds of the new validators are
      complete: each with more than `2 t` acks. */
  lemma ReadyIff(ourId: nat, kgs: KeyGenState)
    requires kgs.keys != map[]
    ensures var threshold := MaxFaulty(|kgs.keys.Keys|);
            var complete := set idx | idx in kgs.parts && |kgs.parts[idx].acks| > 2 * threshold;
            IsReady(ourId, kgs) <==> 3 * |complete| > 2 * |kgs.keys|
  {
    assert |kgs.keys.Keys| == |kgs.keys| > 0;
    assert Skg.CompleteParts(kgs.parts, Threshold(kgs.keys))
        == set idx | idx in kgs.parts && |kgs.parts[idx].acks| > 2 * Threshold(kgs.keys);
  }

  // ----- The log of a run -----

  type Log = seq<KeyShares.Entry>

  /** One of the new validators has signed this message for this era, with its old key or with its
      new one. Exactly such messages count. */
  predicate Counts(s: State, m: SignedKeyGenMsg) {
    && m.era == s.era && s.keyGen.Some? && m.sender in s.keyGen.value.keys
    && (|| m.sig == KeyGenSignature(s.keyGen.value.keys[m.sender], m.msg)
        || (m.sender in s.net.keys && m.sig == KeyGenSignature(s.net.keys[m.sender], m.msg)))
  }

  /** The log of the running key generation, after this message. */
  function SignedLog(s: State, log: Log, m: SignedKeyGenMsg): Log {
    if Counts(s, m) then log + [EntryOf(s.keyGen.value.keys, m.sender, m.msg)] else log
  }

  function AllSignedLog(s: State, log: Log, ms: seq<SignedKeyGenMsg>): Log
    decreases |ms|
  {
    if ms == [] || HandleSigned(s, ms[0]).error.Some? then log
    else AllSignedLog(HandleSigned(s, ms[0]).state, SignedLog(s, log, ms[0]), ms[1..])
  }

  function ContributionLog(s: State, log: Log, c: InternalContrib): Log {
    AllSignedLog(s.(committed := AddVotes(s.net.keys, s.era, s.committed, c.votes)), log, c.keyGenMessages)
  }

  function ContributionsLog(s: State, log: Log, cs: seq<(nat, InternalContrib)>): Log
    decreases |cs|
  {
    if cs == [] then log
    else
      var r, log1 := HandleContribution(s, cs[0].1), ContributionLog(s, log, cs[0].1);
      if r.error.Some? then log1 else ContributionsLog(r.state, log1, cs[1..])
  }

  /** When a key generation ends or starts, the log is empty. */
  function ChangeLog(s: State, log: Log, nextEra: nat): Log {
    if NewKeys(ApplyChange(s, nextEra).state.keyGen) == NewKeys(s.keyGen) then log else []
  }

  function BatchLog(s: State, log: Log, b: HbBatch): Log {
    var r, log1 := HandleContributions(s, b.contributions), ContributionsLog(s, log, b.contributions);
    if r.error.Some? then log1 else ChangeLog(r.state, log1, b.epoch + s.era + 1)
  }

  function OutputLog(s: State, log: Log, bs: seq<HbBatch>): Log
    decreases |bs|
  {
    if bs == [] then log
    else
      var p, log1 := ProcessBatch(s, bs[0]), BatchLog(s, log, bs[0]);
      if p.Failed? then log1 else OutputLog(p.state, log1, bs[1..])
  }

  // ----- Every node has replayed it -----

  ghost predicate Replayed(s: State, log: Log) {
    s.keyGen.Some? ==> HasReplayed(s.net.ourId, s.keyGen.value, log)
  }

  lemma SignedReplays(s: State, log: Log, m: SignedKeyGenMsg)
    requires Replayed(s, log)
    ensures Replayed(HandleSigned(s, m).state, SignedLog(s, log, m))
  {
    hide Skg.HandlePart, Skg.HandleAck, KeyShares.Replay;
    if Counts(s, m) {
      HandleKeyGenReplays(s, log, m.sender, m.msg);
    }
  }

  lemma {:induction false} AllSignedReplay(s: State, log: Log, ms: seq<SignedKeyGenMsg>)
    requires Replayed(s, log)
    ensures Replayed(HandleAllSigned(s, ms).state, AllSignedLog(s, log, ms))
    decreases |ms|
  {
    if ms != [] {
      hide HandleSigned, SignedLog, Replayed;
      SignedReplays(s, log, ms[0]);
      if HandleSigned(s, ms[0]).error.Some? {
        FailedSame(s, ms[0]);
      } else {
        AllSignedReplay(HandleSigned(s, ms[0]).state, SignedLog(s, log, ms[0]), ms[1..]);
      }
    }
  }

  lemma FailedSame(s: State, m: SignedKeyGenMsg)
    requires HandleSigned(s, m).error.Some?
    ensures HandleSigned(s, m).state == s
  {
    hide Skg.HandlePart, Skg.HandleAck;
  }

  lemma ContributionReplays(s: State, log: Log, c: InternalContrib)
    requires Replayed(s, log)
    ensures Replayed(HandleContribution(s, c).state, ContributionLog(s, log, c))
  {
    hide HandleAllSigned, AllSignedLog, AddVotes;
    AllSignedReplay(s.(committed := AddVotes(s.net.keys, s.era, s.committed, c.votes)), log, c.keyGenMessages);
  }

  lemma {:induction false} ContributionsReplay(s: State, log: Log, cs: seq<(nat, InternalContrib)>)
    requires Replayed(s, log)
    ensures Replayed(HandleContributions(s, cs).state, ContributionsLog(s, log, cs))
    decreases |cs|
  {
    if cs != [] {
      hide HandleContribution, ContributionLog, Replayed;
      ContributionReplays(s, log, cs[0].1);
      ContributionsReplay(HandleContribution(s, cs[0].1).state, ContributionLog(s, log, cs[0].1), cs[1..]);
    }
  }

  lemma ChangeReplays(s: State, log: Log, nextEra: nat)
    requires Replayed(s, log)
    ensures Replayed(ApplyChange(s, nextEra).state, ChangeLog(s, log, nextEra))
  {
    hide IsReady, IntoNetworkInfo, ComputeWinner, Threshold;
    assert KeyShares.Replay(KeyGenConfig(0, map[]), []) == map[];
  }

  lemma BatchReplays(s: State, log: Log, b: HbBatch)
    requires Replayed(s, log)
    ensures Replayed(ProcessBatch(s, b).state, BatchLog(s, log, b))
  {
    hide HandleContributions, ContributionsLog, ApplyChange, ChangeLog, Replayed, UserContributions;
    ContributionsReplay(s, log, b.contributions);
    var r, log1 := HandleContributions(s, b.contributions), ContributionsLog(s, log, b.contributions);
    ChangeReplays(r.state, log1, b.epoch + s.era + 1);
  }

  /** Whatever batches a node processes: its key generation has handled exactly the messages of
      the log, in order. */
  lemma {:induction false} OutputReplays(s: State, log: Log, bs: seq<HbBatch>)
    requires Replayed(s, log)
    ensures Replayed(ProcessOutput(s, bs).state, OutputLog(s, log, bs))
    decreases |bs|
  {
    if bs != [] {
      hide ProcessBatch, BatchLog, Replayed;
      BatchReplays(s, log, bs[0]);
      if ProcessBatch(s, bs[0]).Output? {
        OutputReplays(ProcessBatch(s, bs[0]).state, BatchLog(s, log, bs[0]), bs[1..]);
      }
    }
  }

  // ----- And it is the same for all -----

  lemma SignedLogSame(a: State, b: State, log: Log, m: SignedKeyGenMsg)
    requires SameState(a, b)
    ensures SignedLog(a, log, m) == SignedLog(b, log, m)
  {
    hide KeyShares.SamePublic;
  }

  lemma {:induction false} AllSignedLogSame(a: State, b: State, log: Log, ms: seq<SignedKeyGenMsg>)
    requires SameState(a, b)
    ensures AllSignedLog(a, log, ms) == AllSignedLog(b, log, ms)
    decreases |ms|
  {
    if ms != [] {
      hide HandleSigned, SignedLog, SameState;
      SignedLogSame(a, b, log, ms[0]);
      SignedSame(a, b, ms[0]);
      AllSignedLogSame(HandleSigned(a, ms[0]).state, HandleSigned(b, ms[0]).state, SignedLog(a, log, ms[0]), ms[1..]);
    }
  }

  lemma ContributionLogSame(a: State, b: State, log: Log, c: InternalContrib)
    requires SameState(a, b)
    ensures ContributionLog(a, log, c) == ContributionLog(b, log, c)
  {
    hide AllSignedLog, AddVotes, SameKeyGen;
    AllSignedLogSame(a.(committed := AddVotes(a.net.keys, a.era, a.committed, c.votes)),
                     b.(committed := AddVotes(b.net.keys, b.era, b.committed, c.votes)), log, c.keyGenMessages);
  }

  lemma {:induction false} ContributionsLogSame(a: State, b: State, log: Log, cs: seq<(nat, InternalContrib)>)
    requires SameState(a, b)
    ensures ContributionsLog(a, log, cs) == ContributionsLog(b, log, cs)
    decreases |cs|
  {
    if cs != [] {
      hide HandleContribution, ContributionLog, SameState;
      ContributionLogSame(a, b, log, cs[0].1);
      ContributionSame(a, b, cs[0].1);
      ContributionsLogSame(HandleContribution(a, cs[0].1).state, HandleContribution(b, cs[0].1).state,
                           ContributionLog(a, log, cs[0].1), cs[1..]);
    }
  }

  lemma SameNewKeys(a: State, b: State)
    requires SameState(a, b)
    ensures NewKeys(a.keyGen) == NewKeys(b.keyGen) && a.era == b.era
  {
  }

  lemma BatchLogSame(a: State, b: State, log: Log, batch: HbBatch)
    requires SameState(a, b)
    ensures BatchLog(a, log, batch) == BatchLog(b, log, batch)
  {
    hide HandleContributions, ContributionsLog, ApplyChange, SameState;
    SameNewKeys(a, b);
    ContributionsLogSame(a, b, log, batch.contributions);
    ContributionsSame(a, b, batch.contributions);
    var r, t := HandleContributions(a, batch.contributions), HandleContributions(b, batch.contributions);
    var nextEra := batch.epoch + a.era + 1;
    ChangeSame(r.state, t.state, nextEra);
    SameNewKeys(r.state, t.state);
    SameNewKeys(ApplyChange(r.state, nextEra).state, ApplyChange(t.state, nextEra).state);
  }

  /** Nodes that are equal in public have the same log after the same batches. */
  lemma {:induction false} LogsAgree(a: State, b: State, log: Log, bs: seq<HbBatch>)
    requires SameState(a, b)
    ensures OutputLog(a, log, bs) == OutputLog(b, log, bs)
    decreases |bs|
  {
    if bs != [] {
      hide ProcessBatch, BatchLog, SameState;
      BatchLogSame(a, b, log, bs[0]);
      BatchSame(a, b, bs[0]);
      LogsAgree(ProcessBatch(a, bs[0]).state, ProcessBatch(b, bs[0]).state, BatchLog(a, log, bs[0]), bs[1..]);
    }
  }

  // ----- New keys -----

  /** The log when the contributions of the last of these batches have been handled. */
  function FinalLog(s: State, bs: seq<HbBatch>, b: HbBatch): Log {
    ContributionsLog(ProcessOutput(s, bs).state, OutputLog(s, [], bs), b.contributions)
  }

  /** Two nodes start without a key generation, or one that has just begun, and process the
      same batches. When the last of them completes a change of the validators, let `log` be
      what the first has seen of that key generation. If at most `f` of the new validators
      are faulty, and the commitments have the right degree, then the new share of the second
      fits the new public key set, and that is the one of the log. */
  lemma NewKeysMatch(sys: KeyShares.System, a: State, s: State, bs: seq<HbBatch>, b: HbBatch, keys: map<nat, nat>)
    requires SameState(a, s) && Replayed(s, [])
    requires var p := ProcessBatch(ProcessOutput(s, bs).state, b);
             p.Output? && p.batch.change == Completed(NodeChange(keys)) && p.batch.net.ourId in keys
    requires sys.Valid() && sys.n == |keys| && sys.threshold == Threshold(keys)
    requires var log := FinalLog(a, bs, b);
             && KeyShares.IsLog(sys, log)
             && KeyShares.AllLow(KeyShares.Replay(Skg.Config(sys.n, None, sys.threshold), log), sys.n, sys.threshold)
    ensures var net := ProcessBatch(ProcessOutput(s, bs).state, b).batch.net;
            && net.keys == keys
            && net.skShare == Some(Eval(net.pkSet, Skg.Point(NodeIndex(keys, net.ourId).value)))
            && net.pkSet == KeyShares.PublicKey(sys, FinalLog(a, bs, b))
  {
    hide ProcessOutput, OutputLog, HandleContributions, ContributionsLog, UserContributions;
    hide SameState, Replayed, KeyShares.AllLow, KeyShares.IsLog, KeyShares.Replay, Eval, Threshold;
    var t := ProcessOutput(s, bs).state;
    OutputReplays(s, [], bs);
    LogsAgree(a, s, [], bs);
    OutputSame(a, s, bs);
    ContributionsLogSame(ProcessOutput(a, bs).state, t, OutputLog(s, [], bs), b.contributions);
    ContributionsReplay(t, OutputLog(s, [], bs), b.contributions);
    var r := HandleContributions(t, b.contributions).state;
    AppliedKeysMatch(sys, r, FinalLog(a, bs, b), b.epoch + t.era + 1, keys);
  }

  lemma AppliedKeysMatch(sys: KeyShares.System, s: State, log: Log, nextEra: nat, keys: map<nat, nat>)
    requires Replayed(s, log)
    requires var c := ApplyChange(s, nextEra);
             c.error.None? && c.change == Completed(NodeChange(keys)) && c.state.net.ourId in keys
    requires sys.Valid() && sys.n == |keys| && sys.threshold == Threshold(keys) && KeyShares.IsLog(sys, log)
    requires KeyShares.AllLow(KeyShares.Replay(Skg.Config(sys.n, None, sys.threshold), log), sys.n, sys.threshold)
    ensures var net := ApplyChange(s, nextEra).state.net;
            && net.keys == keys
            && net.skShare == Some(Eval(net.pkSet, Skg.Point(NodeIndex(keys, net.ourId).value)))
            && net.pkSet == KeyShares.PublicKey(sys, log)
  {
    ChangeMeans(s, nextEra);
    hide ApplyChange, IsReady, KeyShares.AllLow, KeyShares.IsLog, KeyShares.Replay, Eval, Threshold, HasWon;
    var kgs := s.keyGen.value;
    SameId(s.net.ourId, kgs);
    KeyShares.SamePublicReplay(KeyGenConfig(s.net.ourId, keys), Skg.Config(sys.n, None, sys.threshold), log);
    KeyShares.PublicConditions(
      kgs.parts, KeyShares.Replay(Skg.Config(sys.n, None, sys.threshold), log), sys.n, sys.threshold);
    KeysMatch(sys, s.net.ourId, kgs, log);
  }

  lemma SameId(ourId: nat, kgs: KeyGenState)
    ensures IntoNetworkInfo(ourId, kgs).ourId == ourId
  {
    hide Skg.SecretShare, Skg.PublicPoly;
  }
}
