module EpochStateObject {
  import opened Options
  import opened Merkle
  import opened SubsetSpec
  import opened EpochStateSpec

  class EpochState {
    var subset: Option<set<nat>>
    var decryption: map<nat, DecryptionState>
    var acceptedProposers: set<nat>
    var subsetHandler: Handler

    function View(): EpochData
      reads this
    {
      EpochData(subsetHandler, decryption, acceptedProposers, subset)
    }

    constructor (handler: Handler)
      ensures View() == EpochStateSpec.Initial(handler)
    {
      subset, decryption, acceptedProposers, subsetHandler := None, map[], {}, handler;
    }

    method ProcessSubset(outputs: seq<Output>)
      modifies this
      ensures View() == EpochStateSpec.ProcessSubset(old(View()), outputs)
    {
      var i := 0;
      while i < |outputs|
        invariant i <= |outputs|
        invariant EpochStateSpec.ProcessSubset(View(), outputs[i..])
                  == EpochStateSpec.ProcessSubset(old(View()), outputs)
      {
        hide ProcessOne;
        assert outputs[i..][1..] == outputs[i + 1..];
        ProcessOutput(outputs[i]);
        i := i + 1;
      }
    }

    method ProcessOutput(o: Output)
      modifies this
      ensures View() == ProcessOne(old(View()), o)
    {
      hide Insert;
      var data := HandleOutput(subsetHandler, o);
      subsetHandler := data.handler;
      assert View() == old(View()).(handler := data.handler);
      InsertAll(data.contributions);
      if data.isDone {
        ghost var s1 := View();
        subset := Some(acceptedProposers);
        decryption := decryption - (decryption.Keys - acceptedProposers);
        assert View() == Finish(s1);
      }
    }

    method InsertAll(contributions: seq<(nat, Bytes)>)
      modifies this
      ensures View() == Insert(old(View()), contributions)
    {
      var i := 0;
      while i < |contributions|
        invariant i <= |contributions|
        invariant Insert(View(), contributions[i..]) == Insert(old(View()), contributions)
      {
        assert contributions[i..][1..] == contributions[i + 1..];
        var (p, v) := contributions[i];
        decryption := decryption[p := Decrypted(v)];
        acceptedProposers := acceptedProposers + {p};
        i := i + 1;
      }
    }

    method HandleDecryptionShare(p: nat)
      modifies this
      ensures View() == HandleShare(old(View()), p)
    {
      if subset.Some? && p !in subset.value {
        return;
      }
      if p !in decryption {
        decryption := decryption[p := Pending];
      }
    }
  }
}
