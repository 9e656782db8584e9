/** The threshold signing object of one coin. */
module ThresholdSignObject {
  import opened Quorums
  import opened ThresholdSignSpec

  class ThresholdSign {
    const net: NetworkInfo
    const doc: nat
    var receivedShares: map<nat, Share>
    var hadInput: bool
    var terminated: bool

    ghost function View(): State
      reads this
    {
      State(doc, receivedShares, hadInput, terminated)
    }

    constructor (net: NetworkInfo, doc: nat)
      ensures this.net == net && View() == Initial(doc)
    {
      this.net, this.doc := net, doc;
      receivedShares, hadInput, terminated := map[], false, false;
    }

    method Sign() returns (step: Step)
      modifies this
      ensures ThresholdSignSpec.Sign(net, old(View())) == Outcome(View(), step)
      decreases Pending(View()), 0
    {
      if hadInput {
        return NO_STEP;
      }
      hadInput := true;
      if !net.IsValidator() {
        step := TryOutput();
      } else {
        var share := Share(net.ourId, doc);
        var handled := HandleShare(net.ourId, share);
        step := Step([share], false, []).Join(handled);
      }
    }

    /** Nothing happens once we have terminated, and unknown senders are an error before. */
    method HandleMessage(sender: nat, share: Share) returns (reply: Reply)
      modifies this
      ensures reply == ThresholdSignSpec.HandleMessage(net, old(View()), sender, share)
      ensures View() == if reply.Done? then reply.state else old(View())
    {
      if terminated {
        return Done(State(doc, receivedShares, hadInput, terminated), NO_STEP);
      }
      if sender >= net.n {
        return UnknownSender;
      }
      var step := HandleShare(sender, share);
      reply := Done(State(doc, receivedShares, hadInput, terminated), step);
    }

    method HandleShare(sender: nat, share: Share) returns (step: Step)
      requires sender < net.n
      modifies this
      ensures ThresholdSignSpec.HandleShare(net, old(View()), sender, share) == Outcome(View(), step)
      decreases Pending(View()), 2
    {
      if terminated {
        return NO_STEP;
      }
      if share != Share(sender, doc) {
        return Step([], false, [sender]);
      }
      receivedShares := receivedShares[sender := share];
      step := TryOutput();
    }

    method TryOutput() returns (step: Step)
      modifies this
      ensures ThresholdSignSpec.TryOutput(net, old(View())) == Outcome(View(), step)
      decreases Pending(View()), 1
    {
      if !terminated && |receivedShares| > net.NumFaulty() {
        terminated := true;
        var signed := Sign();
        step := signed.Join(Step([], true, []));
      } else {
        step := NO_STEP;
      }
    }
  }
}
