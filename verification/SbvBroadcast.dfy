/** Synchronized Binary Value Broadcast: the `BVal` and `Aux` steps of one
    Binary Agreement epoch, as functions from the old state to the new one. */
module SbvSpec {
  import opened BoolMultimaps
  import opened Quorums

  const BOTH: set<bool> := {false, true}

  datatype Message = BVal(b: bool) | Aux(b: bool)

  datatype FaultKind = DuplicateBVal | DuplicateAux

  datatype Fault = Fault(id: nat, kind: FaultKind)

  /** What one call produces: multicast messages, outputs and faults, in order. */
  datatype Step = Step(messages: seq<Message>, output: seq<set<bool>>, faults: seq<Fault>) {
    function Join(other: Step): Step {
      Step(messages + other.messages, output + other.output, faults + other.faults)
    }
  }

  const NO_STEP := Step([], [], [])

  datatype State = State(
    binValues: set<bool>,
    receivedBval: BoolMultimap,
    sentBval: set<bool>,
    receivedAux: BoolMultimap,
    terminated: bool)

  datatype Outcome = Outcome(state: State, step: Step)

  const INITIAL := State({}, EMPTY, {}, EMPTY, false)

  /** Starts a new epoch in which `init` counts as received `BVal` and `Aux`. */
  function Clear(init: BoolMultimap): State {
    State({}, init, {}, init, false)
  }

  function CountAux(s: State): nat {
    (if false in s.binValues then |s.receivedAux.no| else 0)
    + (if true in s.binValues then |s.receivedAux.yes| else 0)
  }

  function AuxValues(s: State): set<bool> {
    set b | b in s.binValues && s.receivedAux.Get(b) != {}
  }

  function TryOutput(net: NetworkInfo, s: State): Outcome {
    if s.terminated || s.binValues == {} || CountAux(s) < net.NumCorrect() then
      Outcome(s, NO_STEP)
    else
      Outcome(s.(terminated := true), Step([], [AuxValues(s)], []))
  }

  function HandleAux(net: NetworkInfo, s: State, sender: nat, b: bool): Outcome {
    if sender in s.receivedAux.Get(b) then
      Outcome(s, Step([], [], [Fault(sender, DuplicateAux)]))
    else
      TryOutput(net, s.(receivedAux := s.receivedAux.Add(b, sender)))
  }

  /** Multicasts `Aux(b)` and handles it. An observer only checks for output. */
  function SendAux(net: NetworkInfo, s: State, b: bool): Outcome {
    if !net.IsValidator() then
      TryOutput(net, s)
    else
      var r := HandleAux(net, s, net.ourId, b);
      Outcome(r.state, Step([Aux(b)], [], []).Join(r.step))
  }

  /** The number of values for which we have not sent `BVal` yet. */
  function Unsent(s: State, b: bool): nat {
    if b in s.sentBval then 0 else 1
  }

  function SendBval(net: NetworkInfo, s: State, b: bool): (r: Outcome)
    ensures s.sentBval <= r.state.sentBval <= s.sentBval + {b}
    decreases Unsent(s, b), 0
  {
    if b in s.sentBval then
      Outcome(s, NO_STEP)
    else
      var s1 := s.(sentBval := s.sentBval + {b});
      if !net.IsValidator() then
        TryOutput(net, s1)
      else
        var r := HandleBval(net, s1, net.ourId, b);
        Outcome(r.state, Step([BVal(b)], [], []).Join(r.step))
  }

  /** The reaction to the `2f + 1`-st `BVal(b)`: believe in `b`, and send `Aux(b)`
      if it is the first such value. */
  function BelieveIn(net: NetworkInfo, s: State, b: bool): Outcome {
    var s1 := s.(binValues := s.binValues + {b});
    if s1.binValues != BOTH then SendAux(net, s1, b) else TryOutput(net, s1)
  }

  function HandleBval(net: NetworkInfo, s: State, sender: nat, b: bool): (r: Outcome)
    ensures s.sentBval <= r.state.sentBval <= s.sentBval + {b}
    decreases Unsent(s, b), 1
  {
    if sender in s.receivedBval.Get(b) then
      Outcome(s, Step([], [], [Fault(sender, DuplicateBVal)]))
    else
      var s1 := s.(receivedBval := s.receivedBval.Add(b, sender));
      var count := |s1.receivedBval.Get(b)|;
      var r1 := if count == 2 * net.NumFaulty() + 1 then BelieveIn(net, s1, b) else Outcome(s1, NO_STEP);
      if count == net.NumFaulty() + 1 then
        var r2 := SendBval(net, r1.state, b);
        Outcome(r2.state, r1.step.Join(r2.step))
      else
        r1
  }

  function HandleMessage(net: NetworkInfo, s: State, sender: nat, msg: Message): Outcome {
    match msg
    case BVal(b) => HandleBval(net, s, sender, b)
    case Aux(b) => HandleAux(net, s, sender, b)
  }
}
