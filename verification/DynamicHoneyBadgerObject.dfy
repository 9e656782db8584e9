/** Dynamic Honey Badger as it is implemented, by updating its fields in place. */
module DhbObject {
  import opened Options
  import opened Polynomials
  import opened VotesSpec
  import opened DhbSpec
  import Skg = SyncKeyGenSpec

  class DynamicHoneyBadger {
    var netinfo: NetworkInfo
    var era: nat
    var encryptionSchedule: nat
    var committedVotes: Committed
    var keyGenState: Option<KeyGenState>

    function View(): State
      reads this
    {
      State(netinfo, era, encryptionSchedule, committedVotes, keyGenState)
    }

    constructor (netinfo: NetworkInfo, era: nat, schedule: nat)
      ensures View() == State(netinfo, era, schedule, map[], None)
    {
      this.netinfo, this.era, encryptionSchedule := netinfo, era, schedule;
      committedVotes, keyGenState := map[], None;
    }

    /** Turns each batch of the inner Honey Badger into one of ours. A failure ends the call, and
        what it would have returned is gone. */
    method ProcessOutput(output: seq<HbBatch>) returns (batches: seq<Batch>, error: Option<Error>)
      modifies this
      ensures Outcome(View(), batches, error) == DhbSpec.ProcessOutput(old(View()), output)
      ensures error.Some? ==> batches == []
    {
      batches, error := [], None;
      ghost var all := DhbSpec.ProcessOutput(View(), output);
      var i := 0;
      while i < |output|
        invariant i <= |output| && error.None?
        invariant var rest := DhbSpec.ProcessOutput(View(), output[i..]);
                  all == if rest.error.Some? then rest else Outcome(rest.state, batches + rest.batches, None)
      {
        hide ProcessBatch;
        assert output[i..][1..] == output[i + 1..];
        var batch;
        batch, error := HandleBatch(output[i]);
        if error.Some? {
          batches := [];
          return;
        }
        ghost var rest := DhbSpec.ProcessOutput(View(), output[i + 1..]);
        assert batches + ([batch.value] + rest.batches) == (batches + [batch.value]) + rest.batches;
        batches := batches + [batch.value];
        i := i + 1;
      }
      assert batches + [] == batches;
    }

    method HandleBatch(b: HbBatch) returns (batch: Option<Batch>, error: Option<Error>)
      modifies this
      ensures match ProcessBatch(old(View()), b)
              case Output(s, out) => View() == s && batch == Some(out) && error == None
              case Failed(s, e) => View() == s && batch == None && error == Some(e)
    {
      hide HandleContributions, DhbSpec.ApplyChange;
      var batchEra := era;
      var batchEpoch := b.epoch + batchEra;
      batch := None;
      // Votes and key generation messages take effect before a change is looked for.
      error := HandleAll(b.contributions);
      if error.Some? {
        return;
      }
      var change;
      change, error := ApplyChange(batchEpoch + 1);
      if error.Some? {
        return;
      }
      batch := Some(Batch(batchEpoch, batchEra, UserContributions(b.contributions), change, netinfo, encryptionSchedule));
    }

    method HandleAll(contributions: seq<(nat, InternalContrib)>) returns (error: Option<Error>)
      modifies this
      ensures Handled(View(), error) == HandleContributions(old(View()), contributions)
    {
      error := None;
      var i := 0;
      while i < |contributions|
        invariant i <= |contributions| && error.None?
        invariant HandleContributions(View(), contributions[i..]) == HandleContributions(old(View()), contributions)
      {
        hide HandleAllSigned, AddVotes;
        assert contributions[i..][1..] == contributions[i + 1..];
        ghost var before := View();
        var c := contributions[i].1;
        committedVotes := AddVotes(netinfo.keys, era, committedVotes, c.votes);
        assert View() == before.(committed := AddVotes(before.net.keys, before.era, before.committed, c.votes));
        error := HandleMessages(c.keyGenMessages);
        assert Handled(View(), error) == HandleContribution(before, c);
        if error.Some? {
          return;
        }
        i := i + 1;
      }
    }

    method HandleMessages(ms: seq<SignedKeyGenMsg>) returns (error: Option<Error>)
      modifies this
      ensures Handled(View(), error) == HandleAllSigned(old(View()), ms)
    {
      error := None;
      var i := 0;
      while i < |ms|
        invariant i <= |ms| && error.None?
        invariant HandleAllSigned(View(), ms[i..]) == HandleAllSigned(old(View()), ms)
      {
        hide DhbSpec.HandleKeyGen, VerifySignature;
        assert ms[i..][1..] == ms[i + 1..];
        if ms[i].era == era && VerifySignature(View(), ms[i].sender, ms[i].sig, ms[i].msg) {
          error := HandleKeyGen(ms[i].sender, ms[i].msg);
          if error.Some? {
            return;
          }
        }
        i := i + 1;
      }
    }

    /** Passes a committed part or ack to the key generation that is running, if any. */
    method HandleKeyGen(sender: nat, msg: KeyGenMessage) returns (error: Option<Error>)
      modifies this
      ensures Handled(View(), error) == DhbSpec.HandleKeyGen(old(View()), sender, msg)
    {
      hide Skg.HandlePart, Skg.HandleAck;
      if keyGenState.None? {
        return None;
      }
      var kgs := keyGenState.value;
      var cfg := KeyGenConfig(netinfo.ourId, kgs.keys);
      var idx := NodeIndex(kgs.keys, sender);
      if idx.None? {
        return Some(UnknownSender);
      }
      var parts := match msg
        case PartMessage(part) => Skg.HandlePart(cfg, kgs.parts, idx.value, part).0
        case AckMessage(ack) => Skg.HandleAck(cfg, kgs.parts, idx.value, ack).0;
      keyGenState := Some(kgs.(parts := parts));
      error := None;
      assert View() == old(View()).(keyGen := Some(kgs.(parts := parts)));
    }

    /** Ends the key generation if enough of its parts are complete. */
    method TakeReadyKeyGen() returns (kgs: Option<KeyGenState>)
      modifies this
      ensures var s := old(View());
              if s.keyGen.Some? && IsReady(s.net.ourId, s.keyGen.value) then
                kgs == s.keyGen && View() == s.(keyGen := None)
              else kgs == None && View() == s
    {
      hide IsReady;
      if keyGenState.Some? && IsReady(netinfo.ourId, keyGenState.value) {
        kgs := keyGenState;
        keyGenState := None;
      } else {
        kgs := None;
      }
    }

    method ApplyChange(nextEra: nat) returns (change: ChangeState, error: Option<Error>)
      modifies this
      ensures Changed(View(), change, error) == DhbSpec.ApplyChange(old(View()), nextEra)
    {
      hide IsReady, IntoNetworkInfo, ComputeWinner, Threshold, DhbSpec.UpdateKeyGen;
      var kgs := TakeReadyKeyGen();
      if kgs.Some? {
        // The new validators take over with the next era.
        netinfo := IntoNetworkInfo(netinfo.ourId, kgs.value);
        assert View() == old(View()).(net := netinfo, keyGen := None);
        RestartHoneyBadger(nextEra);
        return Completed(NodeChange(netinfo.keys)), None;
      }
      match ComputeWinner(committedVotes, Threshold(netinfo.keys)) {
        case None => change, error := NoChange, None;
        case Some(NodeChange(keys)) =>
          // These validators first need keys.
          error := UpdateKeyGen(nextEra, keys);
          change := InProgress(NodeChange(keys));
        case Some(EncryptionSchedule(schedule)) =>
          encryptionSchedule := schedule;
          assert View() == old(View()).(schedule := schedule);
          RestartHoneyBadger(nextEra);
          change, error := Completed(EncryptionSchedule(schedule)), None;
      }
    }

    /** Starts a key generation for these validators, unless that is the one that is running. */
    method UpdateKeyGen(nextEra: nat, keys: map<nat, nat>) returns (error: Option<Error>)
      modifies this
      ensures Handled(View(), error) == DhbSpec.UpdateKeyGen(old(View()), nextEra, keys)
    {
      error := None;
      if keyGenState.Some? && keyGenState.value.keys == keys {
        return;
      }
      RestartHoneyBadger(nextEra);
      if |keys| == 0 {
        return Some(Panic);
      }
      keyGenState := Some(KeyGenState(keys, map[]));
      assert View() == Restart(old(View()), nextEra).(keyGen := Some(KeyGenState(keys, map[])));
    }

    /** The next era begins, and all votes are void. */
    method RestartHoneyBadger(nextEra: nat)
      modifies this
      ensures View() == Restart(old(View()), nextEra)
    {
      era := nextEra;
      committedVotes := map[];
    }
  }
}
