/** Collaborative threshold signing of one document, used as a common coin.

    The scheme is ideal: a share is valid exactly when it was made by the node that
    sends it, for the document at hand, and any `f + 1` valid shares combine to the
    one signature of that document. */
module ThresholdSignSpec {
  import opened Quorums

  /** A signature share: who made it, and for which document. */
  datatype Share = Share(signer: nat, doc: nat)

  /** The messages and outputs of one call. The output stands for the signature. */
  datatype Step = Step(messages: seq<Share>, hasOutput: bool, faults: seq<nat>) {
    function Join(other: Step): Step {
      Step(messages + other.messages, hasOutput || other.hasOutput, faults + other.faults)
    }
  }

  const NO_STEP := Step([], false, [])

  datatype State = State(doc: nat, receivedShares: map<nat, Share>, hadInput: bool, terminated: bool)

  datatype Outcome = Outcome(state: State, step: Step)

  function Initial(doc: nat): State {
    State(doc, map[], false, false)
  }

  predicate IsShareValid(s: State, id: nat, share: Share) {
    share == Share(id, s.doc)
  }

  predicate HasEnough(net: NetworkInfo, s: State) {
    !s.terminated && |s.receivedShares| > net.NumFaulty()
  }

  function Pending(s: State): nat {
    (if s.hadInput then 0 else 1) + (if s.terminated then 0 else 1)
  }

  /** Sends our share, unless we have done so before. */
  function Sign(net: NetworkInfo, s: State): (r: Outcome)
    ensures r.state.doc == s.doc && r.state.hadInput
    decreases Pending(s), 0
  {
    if s.hadInput then
      Outcome(s, NO_STEP)
    else
      var s1 := s.(hadInput := true);
      if !net.IsValidator() then
        TryOutput(net, s1)
      else
        var share := Share(net.ourId, s.doc);
        var r := HandleShare(net, s1, net.ourId, share);
        Outcome(r.state, Step([share], false, []).Join(r.step))
  }

  /** Outputs once there are more than `f` shares, after making sure ours is sent. */
  function TryOutput(net: NetworkInfo, s: State): (r: Outcome)
    ensures r.state.doc == s.doc && (s.hadInput ==> r.state.hadInput)
    decreases Pending(s), 1
  {
    if HasEnough(net, s) then
      var r := Sign(net, s.(terminated := true));
      Outcome(r.state, r.step.Join(Step([], true, [])))
    else
      Outcome(s, NO_STEP)
  }

  /** A share of a known validator, which counts if it is valid. */
  function HandleShare(net: NetworkInfo, s: State, sender: nat, share: Share): (r: Outcome)
    requires sender < net.n
    ensures r.state.doc == s.doc && (s.hadInput ==> r.state.hadInput)
    decreases Pending(s), 2
  {
    if s.terminated then
      Outcome(s, NO_STEP)
    else if !IsShareValid(s, sender, share) then
      Outcome(s, Step([], false, [sender]))
    else
      TryOutput(net, s.(receivedShares := s.receivedShares[sender := share]))
  }

  datatype Reply = Done(state: State, step: Step) | UnknownSender

  function HandleMessage(net: NetworkInfo, s: State, sender: nat, share: Share): Reply {
    if s.terminated then Done(s, NO_STEP)
    else if sender >= net.n then UnknownSender
    else
      var r := HandleShare(net, s, sender, share);
      Done(r.state, r.step)
  }
}
