/** The sender queue of Dynamic Honey Badger, as functions of its state. The managed
    algorithm is a parameter: what it returns, and the epoch it has reached. */
module SenderQueueSpec {
  import opened Options
  import opened Orders

  /** Era, and epoch within the era. */
  datatype Epoch = Epoch(era: nat, hb: nat)

  const ZERO := Epoch(0, 0)

  predicate Lt(a: Epoch, b: Epoch) {
    a.era < b.era || (a.era == b.era && a.hb < b.hb)
  }

  predicate Le(a: Epoch, b: Epoch) {
    !Lt(b, a)
  }

  datatype Message =
    | HoneyBadger(era: nat, epoch: nat, payload: nat)
    | KeyGen(era: nat, payload: nat)
    | SignedVote(era: nat, payload: nat)

  /** Where the message is queued. Messages about votes and keys belong to the start of the era. */
  function FirstEpoch(m: Message): Epoch {
    Epoch(m.era, if m.HoneyBadger? then m.epoch else 0)
  }

  /** A node in epoch `them` would report the sender of this message. */
  predicate IsPremature(m: Message, them: Epoch, maxFuture: nat) {
    m.era > them.era || (m.HoneyBadger? && m.era == them.era && m.epoch > them.hb + maxFuture)
  }

  /** A node in epoch `them` would ignore it. */
  predicate IsObsolete(m: Message, them: Epoch) {
    m.era < them.era || (m.HoneyBadger? && m.era == them.era && m.epoch < them.hb)
  }

  predicate IsAccepted(m: Message, them: Epoch, maxFuture: nat) {
    !IsPremature(m, them, maxFuture) && !IsObsolete(m, them)
  }

  datatype Target = All | Node(id: nat)

  /** What matters of an output: its epoch, and who takes part from then on, if it says so. */
  datatype Batch = Batch(participants: Option<set<nat>>, epoch: Epoch)

  datatype AlgoStep = AlgoStep(messages: seq<(Target, Message)>, output: seq<Batch>)

  datatype QueueMessage = EpochStarted(epoch: Epoch) | Algo(msg: Message)

  type Sends = seq<(Target, QueueMessage)>

  type Queue = map<Epoch, seq<Message>>

  datatype State = State(
    ourId: nat,
    maxFuture: nat,
    algoEpoch: Epoch,
    outgoing: map<nat, Queue>,
    peerEpochs: map<nat, Epoch>,
    lastEpochs: map<nat, Epoch>,
    participants: set<nat>,
    isRemoved: bool)

  // ----- Epochs in ascending order -----

  lemma {:induction false} FindEarliest(s: set<Epoch>) returns (m: Epoch)
    requires s != {}
    ensures m in s && forall k :: k in s ==> Le(m, k)
  {
    var k :| k in s;
    var rest := s - {k};
    assert forall j :: j in s ==> j == k || j in rest;
    if rest == {} {
      m := k;
    } else {
      var l := FindEarliest(rest);
      m := if Lt(l, k) then l else k;
    }
  }

  predicate IsEarliest(s: set<Epoch>, m: Epoch) {
    m in s && forall k :: k in s ==> Le(m, k)
  }

  lemma EarliestExists(s: set<Epoch>)
    requires s != {}
    ensures exists m: Epoch :: IsEarliest(s, m)
  {
    var m := FindEarliest(s);
    assert IsEarliest(s, m);
  }

  function Earliest(s: set<Epoch>): (m: Epoch)
    requires s != {}
    ensures IsEarliest(s, m)
  {
    EarliestExists(s);
    var m :| IsEarliest(s, m);
    m
  }

  // ----- Removing participants -----

  /** Removes a participant that was scheduled for removal, if it is time. */
  function RemoveIfOld(s: State, id: nat): (State, bool) {
    if id !in s.lastEpochs || Le(s.algoEpoch, s.lastEpochs[id]) then (s, false)
    else if id == s.ourId then
      (s.(isRemoved := true, lastEpochs := s.lastEpochs - {id}), true)
    else if id in s.peerEpochs && Le(s.peerEpochs[id], s.lastEpochs[id]) then (s, false)
    else
      (s.(peerEpochs := s.peerEpochs - {id}, outgoing := s.outgoing - {id}, lastEpochs := s.lastEpochs - {id}), true)
  }

  function RemoveAfter(s: State, id: nat, last: Epoch): State {
    RemoveIfOld(s.(lastEpochs := s.lastEpochs[id := last]), id).0
  }

  function RemoveAll(s: State, ids: seq<nat>, last: Epoch): State
    decreases |ids|
  {
    if ids == [] then s else RemoveAll(RemoveAfter(s, ids[0], last), ids[1..], last)
  }

  // ----- Changes of the participants -----

  function AddCandidate(s: State, id: nat, at: Epoch): State {
    if id == s.ourId then s
    else
      var s1 := if id in s.peerEpochs then s else s.(peerEpochs := s.peerEpochs[id := ZERO]);
      if id in s1.lastEpochs && Lt(s1.lastEpochs[id], at) then s1.(lastEpochs := s1.lastEpochs - {id}) else s1
  }

  function AddCandidates(s: State, ids: seq<nat>, at: Epoch): State
    decreases |ids|
  {
    if ids == [] then s else AddCandidates(AddCandidate(s, ids[0], at), ids[1..], at)
  }

  function ChangeParticipants(s: State, next: set<nat>, at: Epoch): State {
    var s1 := AddCandidates(s, Ascending(next), at);
    var s2 := RemoveAll(s1, Ascending(s1.participants - next), at);
    s2.(participants := next)
  }

  function HandleBatch(s: State, b: Batch): State {
    if b.participants.None? then s else ChangeParticipants(s, b.participants.value, b.epoch)
  }

  /** Whether this batch removes us. */
  predicate RemovesUs(s: State, b: Batch) {
    b.participants.Some? && s.ourId in s.participants && s.ourId !in b.participants.value
  }

  function HandleBatches(s: State, bs: seq<Batch>): State
    decreases |bs|
  {
    if bs == [] then s else HandleBatches(HandleBatch(s, bs[0]), bs[1..])
  }

  predicate AnyRemovesUs(s: State, bs: seq<Batch>)
    decreases |bs|
  {
    bs != [] && (RemovesUs(s, bs[0]) || AnyRemovesUs(HandleBatch(s, bs[0]), bs[1..]))
  }

  /** What is announced after the algorithm has returned these batches. */
  function Announcement(s: State, bs: seq<Batch>): Sends {
    var s1 := HandleBatches(s, bs);
    if bs != [] && (!s1.isRemoved || AnyRemovesUs(s, bs)) then [(All, EpochStarted(s.algoEpoch))] else []
  }

  // ----- Deferring messages -----

  datatype Deferral = Deferral(passed: Sends, deferred: seq<(nat, Message)>) {
    function Join(other: Deferral): Deferral {
      Deferral(passed + other.passed, deferred + other.deferred)
    }
  }

  const NO_DEFERRAL := Deferral([], [])

  function DeferFor(s: State, id: nat, m: Message): Deferral
    requires id in s.peerEpochs
  {
    if IsPremature(m, s.peerEpochs[id], s.maxFuture) then Deferral([], [(id, m)])
    else if IsObsolete(m, s.peerEpochs[id]) then NO_DEFERRAL
    else Deferral([(Node(id), Algo(m))], [])
  }

  function Split(s: State, ids: seq<nat>, m: Message): Deferral
    requires forall id :: id in ids ==> id in s.peerEpochs
    decreases |ids|
  {
    if ids == [] then NO_DEFERRAL else DeferFor(s, ids[0], m).Join(Split(s, ids[1..], m))
  }

  predicate AllAccept(s: State, m: Message) {
    forall id :: id in s.peerEpochs ==> IsAccepted(m, s.peerEpochs[id], s.maxFuture)
  }

  function DeferOne(s: State, tm: (Target, Message)): Deferral {
    match tm.0
    case Node(id) => if id in s.peerEpochs then DeferFor(s, id, tm.1) else NO_DEFERRAL
    case All =>
      if AllAccept(s, tm.1) then Deferral([(All, Algo(tm.1))], [])
      else Split(s, Ascending(s.peerEpochs.Keys), tm.1)
  }

  function Defer(s: State, messages: seq<(Target, Message)>): Deferral
    decreases |messages|
  {
    if messages == [] then NO_DEFERRAL else DeferOne(s, messages[0]).Join(Defer(s, messages[1..]))
  }

  function Push(outgoing: map<nat, Queue>, id: nat, m: Message): map<nat, Queue> {
    var queue := if id in outgoing then outgoing[id] else map[];
    var key := FirstEpoch(m);
    outgoing[id := queue[key := (if key in queue then queue[key] else []) + [m]]]
  }

  function PushAll(outgoing: map<nat, Queue>, deferred: seq<(nat, Message)>): map<nat, Queue>
    decreases |deferred|
  {
    if deferred == [] then outgoing
    else PushAll(Push(outgoing, deferred[0].0, deferred[0].1), deferred[1..])
  }

  // ----- Calls -----

  /** What the algorithm did: its new epoch, and its step unless it failed. */
  datatype AlgoResult = AlgoResult(epoch: Epoch, step: Option<AlgoStep>)

  /** The state when the algorithm has returned and its output has been looked at. */
  function AfterOutput(s: State, r: AlgoResult): State {
    var s1 := s.(algoEpoch := r.epoch);
    if r.step.None? then s1 else HandleBatches(s1, r.step.value.output)
  }

  function Messages(r: AlgoResult): seq<(Target, Message)> {
    if r.step.None? then [] else r.step.value.messages
  }

  /** Calls the algorithm and converts its step. */
  function Apply(s: State, r: AlgoResult): (State, Sends) {
    var s1 := s.(algoEpoch := r.epoch);
    if r.step.None? then (s1, [])
    else
      var s2 := AfterOutput(s, r);
      var d := Defer(s2, Messages(r));
      (s2.(outgoing := PushAll(s2.outgoing, d.deferred)), Announcement(s1, r.step.value.output) + d.passed)
  }

  /** The keys of a queue up to this epoch. */
  function KeysUpTo(queue: Queue, epoch: Epoch): set<Epoch> {
    set k | k in queue && Le(k, epoch)
  }

  /** The messages to `id` under these keys, by ascending keys, unless they are obsolete. */
  function Flush(id: nat, queue: Queue, keys: set<Epoch>, epoch: Epoch): Sends
    requires keys <= queue.Keys
  {
    if keys == {} then []
    else
      var k := Earliest(keys);
      SendAll(id, queue[k], epoch) + Flush(id, queue, keys - {k}, epoch)
  }

  function SendAll(id: nat, messages: seq<Message>, epoch: Epoch): Sends
    decreases |messages|
  {
    if messages == [] then []
    else
      (if IsObsolete(messages[0], epoch) then [] else [(Node(id), Algo(messages[0]))])
      + SendAll(id, messages[1..], epoch)
  }

  function ProcessNewEpoch(s: State, id: nat, epoch: Epoch): (State, Sends) {
    if id !in s.outgoing then (s, [])
    else
      var queue := s.outgoing[id];
      var keys := KeysUpTo(queue, epoch);
      (s.(outgoing := s.outgoing[id := queue - keys]), Flush(id, queue, keys, epoch))
  }

  /** The state when the announced epoch has been noted. */
  function Noted(s: State, sender: nat, epoch: Epoch): State {
    s.(peerEpochs := s.peerEpochs[sender :=
      if sender in s.peerEpochs && Le(epoch, s.peerEpochs[sender]) then s.peerEpochs[sender] else epoch])
  }

  function HandleEpochStarted(s: State, sender: nat, epoch: Epoch): (State, Sends) {
    var (s1, removed) := RemoveIfOld(Noted(s, sender, epoch), sender);
    if removed then (s1, []) else ProcessNewEpoch(s1, sender, epoch)
  }

  /** An input for the algorithm, or a message for it. */
  function HandleAlgo(s: State, r: AlgoResult): (State, Sends) {
    if s.isRemoved then (s, []) else Apply(s, r)
  }

  function HandleAnnouncement(s: State, sender: nat, epoch: Epoch): (State, Sends) {
    if s.isRemoved then (s, []) else HandleEpochStarted(s, sender, epoch)
  }
}
