/** Whole runs of threshold signing: when there is a signature, and when our share is released. */
module ThresholdSignRuns {
  import opened Quorums
  import opened ThresholdSignSpec

  datatype Call = Release | Receive(sender: nat, share: Share)

  /** With everything that was sent, and the number of outputs. */
  datatype Node = Node(state: State, sent: seq<Share>, outputs: nat)

  function Note(n: Node, r: Outcome): Node {
    Node(r.state, n.sent + r.step.messages, n.outputs + if r.step.hasOutput then 1 else 0)
  }

  function Handle(net: NetworkInfo, n: Node, c: Call): Node {
    match c
    case Release => Note(n, Sign(net, n.state))
    case Receive(sender, share) =>
      match HandleMessage(net, n.state, sender, share)
      case Done(s, step) => Note(n, Outcome(s, step))
      case UnknownSender => n
  }

  function Run(net: NetworkInfo, doc: nat, calls: seq<Call>): Node {
    if calls == [] then Node(Initial(doc), [], 0)
    else Handle(net, Run(net, doc, calls[..|calls| - 1]), calls[|calls| - 1])
  }

  /** The validators who have sent their share for this document, and ourselves if we have been
      asked for ours. */
  function Signers(net: NetworkInfo, doc: nat, calls: seq<Call>): set<nat> {
    (set i | 0 <= i < |calls| && calls[i].Receive? && calls[i].sender < net.n
             && calls[i].share == Share(calls[i].sender, doc) :: calls[i].sender)
    + if Release in calls && net.IsValidator() then {net.ourId} else {}
  }

  /** What the calls so far have led to. */
  ghost predicate NodeOk(net: NetworkInfo, doc: nat, calls: seq<Call>, n: Node) {
    var signers := Signers(net, doc, calls);
    && n.state.doc == doc
    && (n.state.terminated <==> |signers| > MaxFaulty(net.n))
    && (!n.state.terminated ==> n.state.receivedShares.Keys == signers)
    && (n.state.hadInput <==> Release in calls || n.state.terminated)
    && n.outputs == (if n.state.terminated then 1 else 0)
    && n.sent == (if n.state.hadInput && net.IsValidator() then [Share(net.ourId, doc)] else [])
  }

  lemma OneMoreSigner(net: NetworkInfo, doc: nat, calls: seq<Call>, c: Call)
    ensures Signers(net, doc, calls + [c])
            == Signers(net, doc, calls)
               + match c
                 case Release => if net.IsValidator() then {net.ourId} else {}
                 case Receive(id, share) => if id < net.n && share == Share(id, doc) then {id} else {}
  {
    var more := calls + [c];
    assert forall i :: 0 <= i < |calls| ==> more[i] == calls[i];
    assert more[|calls|] == c;
  }

  /** Once there are enough shares, we output, and release ours if we have not. */
  lemma Outputs(net: NetworkInfo, s: State)
    requires !s.terminated
    ensures var r := TryOutput(net, s);
            if |s.receivedShares| > MaxFaulty(net.n) then
              && r.state == s.(terminated := true, hadInput := true)
              && r.step.hasOutput
              && r.step.messages == if s.hadInput || !net.IsValidator() then [] else [Share(net.ourId, s.doc)]
            else r == Outcome(s, NO_STEP)
  {
    var t := s.(terminated := true, hadInput := true);
    assert TryOutput(net, t) == Outcome(t, NO_STEP);
    assert net.IsValidator() ==> HandleShare(net, t, net.ourId, Share(net.ourId, s.doc)) == Outcome(t, NO_STEP);
  }

  lemma ReleasedTwice(net: NetworkInfo, s: State)
    requires s.hadInput
    ensures Sign(net, s) == Outcome(s, NO_STEP)
  {
  }

  lemma Released(net: NetworkInfo, s: State)
    requires !s.hadInput && !s.terminated
    ensures var r := Sign(net, s);
            var share := Share(net.ourId, s.doc);
            var shares := if net.IsValidator() then s.receivedShares[net.ourId := share] else s.receivedShares;
            var enough := |shares| > MaxFaulty(net.n);
            && r.state == s.(hadInput := true, receivedShares := shares, terminated := enough)
            && r.step.hasOutput == enough
            && r.step.messages == if net.IsValidator() then [share] else []
  {
    hide TryOutput;
    var s1 := s.(hadInput := true);
    if net.IsValidator() {
      var s2 := s1.(receivedShares := s1.receivedShares[net.ourId := Share(net.ourId, s.doc)]);
      assert HandleShare(net, s1, net.ourId, Share(net.ourId, s.doc)) == TryOutput(net, s2);
      Outputs(net, s2);
    } else {
      Outputs(net, s1);
    }
  }

  lemma ReleaseOk(net: NetworkInfo, doc: nat, calls: seq<Call>, n: Node)
    requires NodeOk(net, doc, calls, n)
    ensures NodeOk(net, doc, calls + [Release], Handle(net, n, Release))
  {
    OneMoreSigner(net, doc, calls, Release);
    assert Release in calls && net.IsValidator() ==> net.ourId in Signers(net, doc, calls);
    var before, after := Signers(net, doc, calls), Signers(net, doc, calls + [Release]);
    SubsetSize(before, after);
    hide Signers, Sign, HandleMessage;
    assert n.sent + [] == n.sent;
    if n.state.hadInput {
      ReleasedTwice(net, n.state);
      assert n.state.terminated || after == before;
    } else {
      Released(net, n.state);
      ReleasedShares(net, n.state, before);
    }
  }

  lemma ReleasedShares(net: NetworkInfo, s: State, signers: set<nat>)
    requires s.receivedShares.Keys == signers
    ensures |s.receivedShares| == |signers|
    ensures var shares := s.receivedShares[net.ourId := Share(net.ourId, s.doc)];
            shares.Keys == signers + {net.ourId} && |shares| == |signers + {net.ourId}|
  {
    var shares := s.receivedShares[net.ourId := Share(net.ourId, s.doc)];
    assert |shares| == |shares.Keys| && |s.receivedShares| == |s.receivedShares.Keys|;
  }

  lemma ReceiveOk(net: NetworkInfo, doc: nat, calls: seq<Call>, n: Node, sender: nat, share: Share)
    requires NodeOk(net, doc, calls, n)
    ensures NodeOk(net, doc, calls + [Receive(sender, share)], Handle(net, n, Receive(sender, share)))
  {
    var c := Receive(sender, share);
    OneMoreSigner(net, doc, calls, c);
    hide Signers, TryOutput;
    var s := n.state;
    SubsetSize(Signers(net, doc, calls), Signers(net, doc, calls + [c]));
    assert n.sent + [] == n.sent;
    if !s.terminated && sender < net.n && share == Share(sender, doc) {
      var s1 := s.(receivedShares := s.receivedShares[sender := share]);
      assert |s1.receivedShares| == |s1.receivedShares.Keys|;
      Outputs(net, s1);
    }
  }

  /** In every run: there is a signature, output once, exactly if more than `f` validators have sent
      their share for the document, or been asked for it; forged shares and those for other
      documents do not count. Our share is sent once, and not before we are asked for it or there
      is a signature. */
  lemma {:induction false} SignedIff(net: NetworkInfo, doc: nat, calls: seq<Call>)
    ensures NodeOk(net, doc, calls, Run(net, doc, calls))
  {
    if calls == [] {
      assert Signers(net, doc, calls) == {};
    } else {
      hide NodeOk, Handle;
      var last := |calls| - 1;
      SignedIff(net, doc, calls[..last]);
      assert calls == calls[..last] + [calls[last]];
      match calls[last] {
        case Release => ReleaseOk(net, doc, calls[..last], Run(net, doc, calls[..last]));
        case Receive(sender, share) => ReceiveOk(net, doc, calls[..last], Run(net, doc, calls[..last]), sender, share);
      }
    }
  }

  /** Exactly forged shares are reported, and unknown senders are an error, as long as there is no
      signature. After that, nothing happens. */
  lemma ForgeryIsReported(net: NetworkInfo, s: State, sender: nat, share: Share)
    ensures var r := HandleMessage(net, s, sender, share);
            if s.terminated then r == Done(s, NO_STEP)
            else if sender >= net.n then r == UnknownSender
            else r.Done? && r.step.faults == if share != Share(sender, s.doc) then [sender] else []
  {
    if !s.terminated && sender < net.n {
      Outputs(net, s.(receivedShares := s.receivedShares[sender := share]));
      OnlyOutputs(net, s.(receivedShares := s.receivedShares[sender := share]));
    }
  }

  lemma OnlyOutputs(net: NetworkInfo, s: State)
    requires !s.terminated
    ensures TryOutput(net, s).step.faults == []
  {
    var t := s.(terminated := true, hadInput := true);
    assert TryOutput(net, t) == Outcome(t, NO_STEP);
    assert net.IsValidator() ==> HandleShare(net, t, net.ourId, Share(net.ourId, s.doc)) == Outcome(t, NO_STEP);
  }
}
