/** The Synchronized BV Broadcast object: its methods update the fields in place
    and compute exactly what `SbvSpec` says. */
module SbvObject {
  import opened BoolMultimaps
  import opened Quorums
  import opened SbvSpec

  class SbvBroadcast {
    const net: NetworkInfo
    var binValues: set<bool>
    var receivedBval: BoolMultimap
    var sentBval: set<bool>
    var receivedAux: BoolMultimap
    var terminated: bool

    ghost function View(): State
      reads this
    {
      State(binValues, receivedBval, sentBval, receivedAux, terminated)
    }

    constructor (net: NetworkInfo)
      ensures this.net == net && View() == INITIAL
    {
      this.net := net;
      binValues, receivedBval, sentBval, receivedAux, terminated := {}, EMPTY, {}, EMPTY, false;
    }

    method Clear(init: BoolMultimap)
      modifies this
      ensures View() == SbvSpec.Clear(init)
    {
      binValues, receivedBval, sentBval, receivedAux, terminated := {}, init, {}, init, false;
    }

    method HandleMessage(sender: nat, msg: Message) returns (step: Step)
      modifies this
      ensures SbvSpec.HandleMessage(net, old(View()), sender, msg) == Outcome(View(), step)
    {
      match msg {
        case BVal(b) => step := HandleBval(sender, b);
        case Aux(b) => step := HandleAux(sender, b);
      }
    }

    method SendBval(b: bool) returns (step: Step)
      modifies this
      ensures SbvSpec.SendBval(net, old(View()), b) == Outcome(View(), step)
      decreases Unsent(View(), b), 0
    {
      if b in sentBval {
        return NO_STEP;
      }
      sentBval := sentBval + {b};
      if !net.IsValidator() {
        step := TryOutput();
      } else {
        var handled := HandleBval(net.ourId, b);
        step := Step([BVal(b)], [], []).Join(handled);
      }
    }

    method HandleBval(sender: nat, b: bool) returns (step: Step)
      modifies this
      ensures SbvSpec.HandleBval(net, old(View()), sender, b) == Outcome(View(), step)
      decreases Unsent(View(), b), 1
    {
      if sender in receivedBval.Get(b) {
        return Step([], [], [Fault(sender, DuplicateBVal)]);
      }
      receivedBval := receivedBval.Add(b, sender);
      var countBval := |receivedBval.Get(b)|;
      step := NO_STEP;
      if countBval == 2 * net.NumFaulty() + 1 {
        binValues := binValues + {b};
        if binValues != BOTH {
          step := SendAux(b);
        } else {
          step := TryOutput();
        }
      }
      if countBval == net.NumFaulty() + 1 {
        var sent := SendBval(b);
        step := step.Join(sent);
      }
    }

    method SendAux(b: bool) returns (step: Step)
      modifies this
      ensures SbvSpec.SendAux(net, old(View()), b) == Outcome(View(), step)
      ensures sentBval == old(sentBval)
    {
      if !net.IsValidator() {
        step := TryOutput();
      } else {
        var handled := HandleAux(net.ourId, b);
        step := Step([Aux(b)], [], []).Join(handled);
      }
    }

    method HandleAux(sender: nat, b: bool) returns (step: Step)
      modifies this
      ensures SbvSpec.HandleAux(net, old(View()), sender, b) == Outcome(View(), step)
      ensures sentBval == old(sentBval)
    {
      if sender in receivedAux.Get(b) {
        return Step([], [], [Fault(sender, DuplicateAux)]);
      }
      receivedAux := receivedAux.Add(b, sender);
      step := TryOutput();
    }

    method TryOutput() returns (step: Step)
      modifies this
      ensures SbvSpec.TryOutput(net, old(View())) == Outcome(View(), step)
      ensures sentBval == old(sentBval)
    {
      if terminated || binValues == {} {
        return NO_STEP;
      }
      var auxCount, auxVals := CountAux();
      if auxCount < net.NumCorrect() {
        return NO_STEP;
      }
      terminated := true;
      step := Step([], [auxVals], []);
    }

    /** Goes through what was received for each value that we believe in. */
    method CountAux() returns (count: nat, values: set<bool>)
      ensures count == SbvSpec.CountAux(View()) && values == AuxValues(View())
    {
      var rest := binValues;
      count, values := 0, {};
      while rest != {}
        invariant rest <= binValues
        invariant count == Share(rest, false) + Share(rest, true)
        invariant forall v :: v in values <==> v in binValues && v !in rest && receivedAux.Get(v) != {}
        decreases |rest|
      {
        var b := true in rest;
        if !b {
          OnlyOther(rest, true);
        }
        if receivedAux.Get(b) != {} {
          values := values + {b};
          count := count + |receivedAux.Get(b)|;
        }
        rest := rest - {b};
      }
      assert forall v :: v in values <==> v in AuxValues(View());
    }

    /** What the value `b` adds to the count, unless it is still in `rest`. */
    ghost function Share(rest: set<bool>, b: bool): nat
      reads this
    {
      if b in binValues && b !in rest then |receivedAux.Get(b)| else 0
    }
  }
}
