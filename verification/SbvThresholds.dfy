/** The thresholds of Synchronized BV Broadcast are compared with `==`, while each
    message may raise several counts. No threshold is ever skipped: at the end of
    every call the state is a function of the counts. */
module SbvThresholds {
  import opened BoolMultimaps
  import opened Quorums
  import opened SbvSpec

  /** We believe in exactly the values with `2 f + 1` `BVal`s, and there is an output
      exactly if `N - f` `Aux` messages carry such values. */
  ghost predicate Counted(net: NetworkInfo, s: State) {
    && (forall b :: b in s.binValues <==> |s.receivedBval.Get(b)| > 2 * net.NumFaulty())
    && (s.terminated <==> s.binValues != {} && CountAux(s) >= net.NumCorrect())
  }

  /** We have sent `Aux` exactly if we believe in something. */
  ghost predicate AuxSent(net: NetworkInfo, s: State) {
    net.IsValidator() ==>
      (s.binValues != {} <==> exists b :: net.ourId in s.receivedAux.Get(b))
  }

  /** We have sent `BVal(b)` and counted it ourselves, at the latest at `f + 1`. */
  ghost predicate BvalSent(net: NetworkInfo, s: State, b: bool) {
    && (|s.receivedBval.Get(b)| > net.NumFaulty() ==> b in s.sentBval)
    && (net.IsValidator() ==> (b in s.sentBval <==> net.ourId in s.receivedBval.Get(b)))
  }

  ghost predicate Complete(net: NetworkInfo, s: State) {
    Counted(net, s) && AuxSent(net, s) && forall b :: BvalSent(net, s, b)
  }

  /** The state inside a call that concerns `b`. */
  ghost predicate Pending(net: NetworkInfo, s: State, b: bool) {
    Counted(net, s) && AuxSent(net, s) && BvalSent(net, s, !b)
  }

  lemma PendingDone(net: NetworkInfo, s: State, b: bool)
    requires Pending(net, s, b) && BvalSent(net, s, b)
    ensures Complete(net, s)
  {
    forall v ensures BvalSent(net, s, v) {
      assert v == b || v == !b;
    }
  }

  lemma AddSize(m: BoolMultimap, b: bool, id: nat)
    requires id !in m.Get(b)
    ensures |m.Add(b, id).Get(b)| == |m.Get(b)| + 1
  {
  }

  lemma TryOutputCounts(net: NetworkInfo, s: State)
    requires s.terminated ==> s.binValues != {} && CountAux(s) >= net.NumCorrect()
    ensures var r := TryOutput(net, s).state;
            && r == s.(terminated := r.terminated)
            && (r.terminated <==> s.binValues != {} && CountAux(s) >= net.NumCorrect())
  {
  }

  lemma HandleAuxComplete(net: NetworkInfo, s: State, sender: nat, b: bool)
    requires Complete(net, s) && sender != net.ourId
    ensures Complete(net, HandleAux(net, s, sender, b).state)
  {
    if sender !in s.receivedAux.Get(b) {
      var s1 := s.(receivedAux := s.receivedAux.Add(b, sender));
      AddSize(s.receivedAux, b, sender);
      assert CountAux(s1) >= CountAux(s);
      TryOutputCounts(net, s1);
      assert forall v :: net.ourId in s1.receivedAux.Get(v) <==> net.ourId in s.receivedAux.Get(v);
      assert forall v :: BvalSent(net, s, v) ==> BvalSent(net, TryOutput(net, s1).state, v);
    }
  }

  /** Reaching `2 f + 1` for `b`, which we did not believe in before. */
  lemma BelieveInCounts(net: NetworkInfo, s: State, b: bool)
    requires b !in s.binValues && |s.receivedBval.Get(b)| > 2 * net.NumFaulty()
    requires !b in s.binValues <==> |s.receivedBval.Get(!b)| > 2 * net.NumFaulty()
    requires s.terminated <==> s.binValues != {} && CountAux(s) >= net.NumCorrect()
    requires AuxSent(net, s)
    ensures var r := BelieveIn(net, s, b).state;
            && Counted(net, r) && AuxSent(net, r)
            && r.receivedBval == s.receivedBval && r.sentBval == s.sentBval
  {
    var s1 := s.(binValues := s.binValues + {b});
    var id := net.ourId;
    if s1.binValues != BOTH {
      if !b in s1.binValues {
        BothValues(s1.binValues, b);
      }
      FirstBelief(net, s, b);
    } else {
      assert !b in s.binValues;
      TryOutputCounts(net, s1);
      assert forall v :: v in s1.binValues <==> |s1.receivedBval.Get(v)| > 2 * net.NumFaulty();
    }
  }

  lemma FirstBelief(net: NetworkInfo, s: State, b: bool)
    requires b !in s.binValues && !b !in s.binValues
    requires |s.receivedBval.Get(b)| > 2 * net.NumFaulty()
    requires |s.receivedBval.Get(!b)| <= 2 * net.NumFaulty()
    requires AuxSent(net, s) && !s.terminated
    ensures var r := SendAux(net, s.(binValues := s.binValues + {b}), b).state;
            && Counted(net, r) && AuxSent(net, r)
            && r.receivedBval == s.receivedBval && r.sentBval == s.sentBval
  {
    assert s.binValues == {} by {
      if s.binValues != {} {
        OnlyOther(s.binValues, b);
      }
    }
    var s1 := s.(binValues := {b});
    assert s.binValues + {b} == {b};
    assert forall v :: v in s1.binValues <==> |s1.receivedBval.Get(v)| > 2 * net.NumFaulty();
    if net.IsValidator() {
      assert net.ourId !in s.receivedAux.Get(b);
      var s2 := s1.(receivedAux := s1.receivedAux.Add(b, net.ourId));
      assert net.ourId in s2.receivedAux.Get(b);
      TryOutputCounts(net, s2);
    } else {
      TryOutputCounts(net, s1);
    }
  }

  lemma SendBvalComplete(net: NetworkInfo, s: State, b: bool)
    requires Pending(net, s, b)
    requires net.IsValidator() ==> (b in s.sentBval <==> net.ourId in s.receivedBval.Get(b))
    ensures var r := SendBval(net, s, b).state; Complete(net, r) && b in r.sentBval
    decreases Unsent(s, b), 0
  {
    if b in s.sentBval {
      PendingDone(net, s, b);
    } else {
      var s1 := s.(sentBval := s.sentBval + {b});
      assert Counted(net, s1) && AuxSent(net, s1) && BvalSent(net, s1, !b);
      if net.IsValidator() {
        HandleBvalComplete(net, s1, net.ourId, b);
      } else {
        TryOutputCounts(net, s1);
        assert TryOutput(net, s1).state == s1;
        PendingDone(net, s1, b);
      }
    }
  }

  /** For a message of another node, or for our own `BVal(b)` when we have just sent it. */
  lemma HandleBvalComplete(net: NetworkInfo, s: State, sender: nat, b: bool)
    requires Pending(net, s, b)
    requires if sender == net.ourId then
               net.IsValidator() && b in s.sentBval && sender !in s.receivedBval.Get(b)
             else
               BvalSent(net, s, b)
    ensures var r := HandleBval(net, s, sender, b).state; Complete(net, r)
    decreases Unsent(s, b), 1
  {
    if sender in s.receivedBval.Get(b) {
      PendingDone(net, s, b);
    } else {
      hide Pending, BelieveIn, SendBval;
      var s1 := s.(receivedBval := s.receivedBval.Add(b, sender));
      var count := |s1.receivedBval.Get(b)|;
      var r1 := if count == 2 * net.NumFaulty() + 1 then BelieveIn(net, s1, b).state else s1;
      CountBval(net, s, sender, b);
      if count == net.NumFaulty() + 1 {
        SendBvalComplete(net, r1, b);
      } else {
        PendingDone(net, r1, b);
      }
    }
  }

  /** Counting a `BVal(b)`, up to the point where we might repeat it. */
  lemma CountBval(net: NetworkInfo, s: State, sender: nat, b: bool)
    requires Pending(net, s, b) && sender !in s.receivedBval.Get(b)
    ensures var s1 := s.(receivedBval := s.receivedBval.Add(b, sender));
            var count := |s1.receivedBval.Get(b)|;
            var r1 := if count == 2 * net.NumFaulty() + 1 then BelieveIn(net, s1, b).state else s1;
            && Pending(net, r1, b)
            && count == |s.receivedBval.Get(b)| + 1
            && r1.receivedBval == s1.receivedBval && r1.sentBval == s1.sentBval
  {
    hide BelieveIn;
    var s1 := s.(receivedBval := s.receivedBval.Add(b, sender));
    AddSize(s.receivedBval, b, sender);
    if |s1.receivedBval.Get(b)| == 2 * net.NumFaulty() + 1 {
      BelieveInCounts(net, s1, b);
    } else {
      assert forall v :: v in s1.binValues <==> |s1.receivedBval.Get(v)| > 2 * net.NumFaulty();
    }
  }

  // ----- Faults -----

  /** A message counts already. */
  predicate IsDuplicate(s: State, sender: nat, msg: Message) {
    match msg
    case BVal(b) => sender in s.receivedBval.Get(b)
    case Aux(b) => sender in s.receivedAux.Get(b)
  }

  lemma BelieveInIsClean(net: NetworkInfo, s: State, b: bool)
    requires b !in s.binValues && (net.IsValidator() && net.ourId in s.receivedAux.Get(b) ==> !b in s.binValues)
    ensures BelieveIn(net, s, b).step.faults == []
  {
    if !b in s.binValues {
      BothValues(s.binValues + {b}, b);
    }
  }

  lemma SendBvalIsClean(net: NetworkInfo, s: State, b: bool)
    requires Pending(net, s, b)
    requires net.IsValidator() ==> (b in s.sentBval <==> net.ourId in s.receivedBval.Get(b))
    ensures SendBval(net, s, b).step.faults == []
    decreases Unsent(s, b), 0
  {
    if b !in s.sentBval && net.IsValidator() {
      HandleBvalIsClean(net, s.(sentBval := s.sentBval + {b}), net.ourId, b);
    }
  }

  lemma HandleBvalIsClean(net: NetworkInfo, s: State, sender: nat, b: bool)
    requires Pending(net, s, b) && sender !in s.receivedBval.Get(b)
    requires if sender == net.ourId then net.IsValidator() && b in s.sentBval else BvalSent(net, s, b)
    ensures HandleBval(net, s, sender, b).step.faults == []
    decreases Unsent(s, b), 1
  {
    var s1 := s.(receivedBval := s.receivedBval.Add(b, sender));
    var count := |s1.receivedBval.Get(b)|;
    var r1 := if count == 2 * net.NumFaulty() + 1 then BelieveIn(net, s1, b) else Outcome(s1, NO_STEP);
    CountBval(net, s, sender, b);
    if count == 2 * net.NumFaulty() + 1 {
      if net.ourId in s.receivedAux.Get(b) && net.IsValidator() {
        OnlyOther(s.binValues, b);
      }
      BelieveInIsClean(net, s1, b);
    }
    if count == net.NumFaulty() + 1 {
      hide BelieveIn;
      SendBvalIsClean(net, r1.state, b);
    }
  }

  /** Exactly messages that count already are reported, whatever a message sets off. */
  lemma DuplicatesAreReported(net: NetworkInfo, s: State, sender: nat, msg: Message)
    requires Complete(net, s) && sender != net.ourId
    ensures HandleMessage(net, s, sender, msg).step.faults
            == if !IsDuplicate(s, sender, msg) then []
               else [Fault(sender, if msg.BVal? then DuplicateBVal else DuplicateAux)]
  {
    if msg.BVal? && sender !in s.receivedBval.Get(msg.b) {
      assert BvalSent(net, s, msg.b) && BvalSent(net, s, !msg.b);
      HandleBvalIsClean(net, s, sender, msg.b);
    }
  }

  // ----- Whole runs -----

  datatype Call = Send(b: bool) | Receive(sender: nat, msg: Message)

  /** The state of one epoch after `calls`, if `init` counted from the start. */
  function Run(net: NetworkInfo, init: BoolMultimap, calls: seq<Call>): State {
    if calls == [] then
      Clear(init)
    else
      var s := Run(net, init, calls[..|calls| - 1]);
      match calls[|calls| - 1]
      case Send(b) => SendBval(net, s, b).state
      case Receive(sender, msg) => HandleMessage(net, s, sender, msg).state
  }

  /** In every run that starts with at most `f` terminated nodes per value, thresholds
      are acted upon exactly when they are reached. */
  lemma {:induction false} ThresholdsHold(net: NetworkInfo, init: BoolMultimap, calls: seq<Call>)
    requires forall b :: |init.Get(b)| <= net.NumFaulty() && net.ourId !in init.Get(b)
    requires forall i :: 0 <= i < |calls| && calls[i].Receive? ==> calls[i].sender != net.ourId
    ensures Complete(net, Run(net, init, calls))
  {
    if calls != [] {
      var before := calls[..|calls| - 1];
      ThresholdsHold(net, init, before);
      var s := Run(net, init, before);
      var last := calls[|calls| - 1];
      match last {
        case Send(b) =>
          assert BvalSent(net, s, b) && BvalSent(net, s, !b);
          SendBvalComplete(net, s, b);
        case Receive(sender, BVal(b)) =>
          assert BvalSent(net, s, b) && BvalSent(net, s, !b);
          HandleBvalComplete(net, s, sender, b);
        case Receive(sender, Aux(b)) =>
          HandleAuxComplete(net, s, sender, b);
      }
    }
  }
}
