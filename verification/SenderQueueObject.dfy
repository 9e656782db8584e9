/** The sender queue as it is implemented, by updating its fields in place. */
module SenderQueueObject {
  import opened Options
  import opened Orders
  import opened SenderQueueSpec

  class SenderQueue {
    const ourId: nat
    const maxFuture: nat
    // Of the managed algorithm, only the epoch is seen.
    var algoEpoch: Epoch
    var outgoingQueue: map<nat, Queue>
    var peerEpochs: map<nat, Epoch>
    var lastEpochs: map<nat, Epoch>
    var participantsAfterChange: set<nat>
    var isRemoved: bool

    function View(): State
      reads this
    {
      State(ourId, maxFuture, algoEpoch, outgoingQueue, peerEpochs, lastEpochs, participantsAfterChange, isRemoved)
    }

    constructor (ourId: nat, maxFuture: nat, algoEpoch: Epoch, peerEpochs: map<nat, Epoch>)
      ensures View() == State(ourId, maxFuture, algoEpoch, map[], peerEpochs, map[], {}, false)
    {
      this.ourId := ourId;
      this.maxFuture := maxFuture;
      this.algoEpoch := algoEpoch;
      this.peerEpochs := peerEpochs;
      outgoingQueue, lastEpochs, participantsAfterChange, isRemoved := map[], map[], {}, false;
    }

    /** Creates a sender queue for an algorithm in this epoch, and announces the epoch. */
    static method Build(ourId: nat, maxFuture: nat, algoEpoch: Epoch, peerEpochs: map<nat, Epoch>)
      returns (queue: SenderQueue, sends: Sends)
      ensures fresh(queue)
      ensures queue.View() == State(ourId, maxFuture, algoEpoch, map[], peerEpochs, map[], {}, false)
      ensures sends == [(All, EpochStarted(algoEpoch))]
    {
      queue := new SenderQueue(ourId, maxFuture, algoEpoch, peerEpochs);
      sends := [(All, EpochStarted(algoEpoch))];
    }

    /** An input, or a message for the algorithm, which answers with `result`. */
    method HandleAlgo(result: AlgoResult) returns (sends: Sends)
      modifies this
      ensures (View(), sends) == SenderQueueSpec.HandleAlgo(old(View()), result)
    {
      if isRemoved {
        return [];
      }
      sends := Apply(result);
    }

    method HandleAnnouncement(sender: nat, epoch: Epoch) returns (sends: Sends)
      modifies this
      ensures (View(), sends) == SenderQueueSpec.HandleAnnouncement(old(View()), sender, epoch)
    {
      if isRemoved {
        return [];
      }
      sends := HandleEpochStarted(sender, epoch);
    }

    method Apply(result: AlgoResult) returns (sends: Sends)
      modifies this
      ensures (View(), sends) == SenderQueueSpec.Apply(old(View()), result)
    {
      hide HandleBatches, Announcement, Defer, PushAll;
      algoEpoch := result.epoch;
      assert View() == old(View()).(algoEpoch := result.epoch);
      if result.step.None? {
        return [];
      }
      var step := result.step.value;
      sends := UpdateEpoch(step.output);
      var passed := DeferMessages(step.messages);
      sends := sends + passed;
    }

    method HandleEpochStarted(sender: nat, epoch: Epoch) returns (sends: Sends)
      modifies this
      ensures (View(), sends) == SenderQueueSpec.HandleEpochStarted(old(View()), sender, epoch)
    {
      hide RemoveIfOld, SenderQueueSpec.ProcessNewEpoch;
      if sender in peerEpochs {
        if Lt(peerEpochs[sender], epoch) {
          peerEpochs := peerEpochs[sender := epoch];
        }
      } else {
        peerEpochs := peerEpochs[sender := epoch];
      }
      assert View() == Noted(old(View()), sender, epoch) by {
        assert peerEpochs == Noted(old(View()), sender, epoch).peerEpochs;
      }
      var removed := RemoveParticipantIfOld(sender);
      if !removed {
        sends := ProcessNewEpoch(sender, epoch);
      } else {
        sends := [];
      }
    }

    method ProcessNewEpoch(sender: nat, epoch: Epoch) returns (sends: Sends)
      modifies this
      ensures (View(), sends) == SenderQueueSpec.ProcessNewEpoch(old(View()), sender, epoch)
    {
      if sender !in outgoingQueue {
        return [];
      }
      var queue := outgoingQueue[sender];
      var keys := KeysUpTo(queue, epoch);
      sends := [];
      var rest := keys;
      while rest != {}
        invariant rest <= keys && View() == old(View())
        invariant sends + Flush(sender, queue, rest, epoch) == Flush(sender, queue, keys, epoch)
        decreases |rest|
      {
        hide Earliest, SendAll, Le;
        var key := Earliest(rest);
        var messages := SendMessages(sender, queue[key], epoch);
        sends := sends + messages;
        rest := rest - {key};
      }
      assert sends + [] == sends;
      outgoingQueue := outgoingQueue[sender := queue - keys];
      assert View() == old(View()).(outgoing := old(outgoingQueue)[sender := queue - keys]);
    }

    /** The messages that are not obsolete. */
    method SendMessages(id: nat, messages: seq<Message>, epoch: Epoch) returns (sends: Sends)
      ensures sends == SendAll(id, messages, epoch)
    {
      sends := [];
      var i := 0;
      while i < |messages|
        invariant i <= |messages|
        invariant sends + SendAll(id, messages[i..], epoch) == SendAll(id, messages, epoch)
      {
        hide IsObsolete;
        assert messages[i..][1..] == messages[i + 1..];
        if !IsObsolete(messages[i], epoch) {
          sends := sends + [(Node(id), Algo(messages[i]))];
        }
        i := i + 1;
      }
      assert sends + [] == sends;
    }

    method UpdateEpoch(output: seq<Batch>) returns (sends: Sends)
      modifies this
      ensures View() == HandleBatches(old(View()), output)
      ensures sends == Announcement(old(View()), output)
    {
      if output == [] {
        return [];
      }
      var sendLastEpochStarted := false;
      var i := 0;
      while i < |output|
        invariant i <= |output| && algoEpoch == old(algoEpoch)
        invariant HandleBatches(View(), output[i..]) == HandleBatches(old(View()), output)
        invariant (sendLastEpochStarted || AnyRemovesUs(View(), output[i..])) == AnyRemovesUs(old(View()), output)
      {
        hide HandleBatch, Announcement;
        var batch := output[i];
        assert output[i..][1..] == output[i + 1..];
        if RemovesUs(View(), batch) {
          sendLastEpochStarted := true;
        }
        if batch.participants.Some? {
          ChangeParticipants(batch.participants.value, batch.epoch);
        }
        BatchIsChange(old(View()), batch);
        i := i + 1;
      }
      assert output[i..] == [];
      if !isRemoved || sendLastEpochStarted {
        sends := [(All, EpochStarted(algoEpoch))];
      } else {
        sends := [];
      }
    }

    lemma BatchIsChange(s: State, b: Batch)
      ensures HandleBatch(s, b)
              == if b.participants.None? then s else SenderQueueSpec.ChangeParticipants(s, b.participants.value, b.epoch)
    {
    }

    method ChangeParticipants(next: set<nat>, at: Epoch)
      modifies this
      ensures View() == SenderQueueSpec.ChangeParticipants(old(View()), next, at)
      ensures algoEpoch == old(algoEpoch)
    {
      hide AddCandidate, RemoveAfter, Least;
      // Who joins or stays.
      var rest := next;
      while rest != {}
        invariant rest <= next && algoEpoch == old(algoEpoch)
        invariant AddCandidates(View(), Ascending(rest), at) == AddCandidates(old(View()), Ascending(next), at)
        decreases |rest|
      {
        var id := Least(rest);
        assert id in rest;
        assert Ascending(rest)[1..] == Ascending(rest - {id});
        InsertCandidate(id, at);
        rest := rest - {id};
      }
      ghost var s1 := View();
      // Who leaves.
      var obsolete := participantsAfterChange - next;
      rest := obsolete;
      while rest != {}
        invariant rest <= obsolete && algoEpoch == old(algoEpoch)
        invariant RemoveAll(View(), Ascending(rest), at) == RemoveAll(s1, Ascending(obsolete), at)
        decreases |rest|
      {
        var id := Least(rest);
        assert id in rest;
        assert Ascending(rest)[1..] == Ascending(rest - {id});
        RemoveParticipantAfter(id, at);
        rest := rest - {id};
      }
      ghost var s2 := View();
      participantsAfterChange := next;
      assert View() == s2.(participants := next);
    }

    method InsertCandidate(id: nat, at: Epoch)
      modifies this
      ensures View() == AddCandidate(old(View()), id, at)
      ensures algoEpoch == old(algoEpoch)
    {
      if id != ourId {
        if id !in peerEpochs {
          peerEpochs := peerEpochs[id := ZERO];
        }
        if id in lastEpochs && Lt(lastEpochs[id], at) {
          lastEpochs := lastEpochs - {id};
        }
      }
    }

    method RemoveParticipantAfter(id: nat, last: Epoch)
      modifies this
      ensures View() == RemoveAfter(old(View()), id, last)
      ensures algoEpoch == old(algoEpoch)
    {
      lastEpochs := lastEpochs[id := last];
      assert View() == old(View()).(lastEpochs := old(lastEpochs)[id := last]);
      var _ := RemoveParticipantIfOld(id);
    }

    method RemoveParticipantIfOld(id: nat) returns (removed: bool)
      modifies this
      ensures (View(), removed) == RemoveIfOld(old(View()), id)
      ensures algoEpoch == old(algoEpoch)
    {
      if id !in lastEpochs {
        return false;
      }
      var last := lastEpochs[id];
      if Le(algoEpoch, last) {
        return false;
      }
      if id == ourId {
        isRemoved := true;
      } else {
        if id in peerEpochs && Le(peerEpochs[id], last) {
          return false;
        }
        peerEpochs := peerEpochs - {id};
        outgoingQueue := outgoingQueue - {id};
      }
      lastEpochs := lastEpochs - {id};
      removed := true;
    }

    /** Queues what is premature, drops what is obsolete, and returns the rest. */
    method DeferMessages(messages: seq<(Target, Message)>) returns (passed: Sends)
      modifies this
      ensures var d := Defer(old(View()), messages);
              && passed == d.passed
              && View() == old(View()).(outgoing := PushAll(old(outgoingQueue), d.deferred))
    {
      hide Defer, PushAll;
      var deferred;
      passed, deferred := SplitMessages(messages);
      Enqueue(deferred);
    }

    method SplitMessages(messages: seq<(Target, Message)>) returns (passed: Sends, deferred: seq<(nat, Message)>)
      ensures Deferral(passed, deferred) == Defer(View(), messages)
    {
      passed, deferred := [], [];
      var i := 0;
      while i < |messages|
        invariant i <= |messages|
        invariant Deferral(passed, deferred).Join(Defer(View(), messages[i..])) == Defer(View(), messages)
      {
        hide DeferOne;
        assert messages[i..][1..] == messages[i + 1..];
        var ps, ds := DeferMessage(messages[i].0, messages[i].1);
        JoinAssoc(Deferral(passed, deferred), Deferral(ps, ds), Defer(View(), messages[i + 1..]));
        passed, deferred := passed + ps, deferred + ds;
        i := i + 1;
      }
      assert passed + [] == passed && deferred + [] == deferred;
    }

    /** Each message goes to the end of the queue for its recipient and first epoch. */
    method Enqueue(deferred: seq<(nat, Message)>)
      modifies this
      ensures View() == old(View()).(outgoing := PushAll(old(outgoingQueue), deferred))
    {
      var i := 0;
      while i < |deferred|
        invariant i <= |deferred| && View() == old(View()).(outgoing := outgoingQueue)
        invariant PushAll(outgoingQueue, deferred[i..]) == PushAll(old(outgoingQueue), deferred)
      {
        hide FirstEpoch;
        assert deferred[i..][1..] == deferred[i + 1..];
        var (id, message) := deferred[i];
        var queue := if id in outgoingQueue then outgoingQueue[id] else map[];
        var key := FirstEpoch(message);
        queue := queue[key := (if key in queue then queue[key] else []) + [message]];
        outgoingQueue := outgoingQueue[id := queue];
        i := i + 1;
      }
    }

    lemma JoinAssoc(a: Deferral, b: Deferral, c: Deferral)
      ensures a.Join(b).Join(c) == a.Join(b.Join(c))
    {
      assert a.passed + b.passed + c.passed == a.passed + (b.passed + c.passed);
      assert a.deferred + b.deferred + c.deferred == a.deferred + (b.deferred + c.deferred);
    }

    lemma SplitStep(s: State, ids: set<nat>, m: Message)
      requires ids != {} && ids <= s.peerEpochs.Keys
      ensures Split(s, Ascending(ids), m)
              == DeferFor(s, Least(ids), m).Join(Split(s, Ascending(ids - {Least(ids)}), m))
    {
      hide DeferFor, Least;
      assert Ascending(ids)[1..] == Ascending(ids - {Least(ids)});
    }

    method DeferMessage(target: Target, message: Message) returns (passed: Sends, deferred: seq<(nat, Message)>)
      ensures Deferral(passed, deferred) == DeferOne(View(), (target, message))
    {
      hide IsPremature, IsObsolete;
      match target {
        case Node(id) =>
          passed, deferred := [], [];
          if id in peerEpochs {
            if IsPremature(message, peerEpochs[id], maxFuture) {
              deferred := [(id, message)];
            } else if !IsObsolete(message, peerEpochs[id]) {
              passed := [(target, Algo(message))];
            }
          }
        case All =>
          if AllAccept(View(), message) {
            return [(All, Algo(message))], [];
          }
          passed, deferred := SplitMessage(message);
      }
    }

    /** One copy for each tracked peer: passed on, deferred or dropped. */
    method SplitMessage(message: Message) returns (passed: Sends, deferred: seq<(nat, Message)>)
      ensures Deferral(passed, deferred) == Split(View(), Ascending(peerEpochs.Keys), message)
    {
      hide IsPremature, IsObsolete, Least, Split, Ascending;
      passed, deferred := [], [];
      var rest := peerEpochs.Keys;
      while rest != {}
        invariant rest <= peerEpochs.Keys
        invariant Deferral(passed, deferred).Join(Split(View(), Ascending(rest), message))
                  == Split(View(), Ascending(peerEpochs.Keys), message)
        decreases |rest|
      {
        var id := Least(rest);
        assert id in rest;
        SplitStep(View(), rest, message);
        JoinAssoc(Deferral(passed, deferred), DeferFor(View(), id, message),
                  Split(View(), Ascending(rest - {id}), message));
        if IsPremature(message, peerEpochs[id], maxFuture) {
          deferred := deferred + [(id, message)];
        } else if !IsObsolete(message, peerEpochs[id]) {
          passed := passed + [(Node(id), Algo(message))];
        }
        rest := rest - {id};
      }
      SplitNone(View(), message);
      assert passed + [] == passed && deferred + [] == deferred;
    }

    lemma SplitNone(s: State, m: Message)
      ensures Split(s, Ascending({}), m) == NO_DEFERRAL
    {
    }
  }
}
