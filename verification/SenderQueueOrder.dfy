/** In which order a sender queue passes messages on. */
module SenderQueueOrder {
  import opened Options
  import opened Orders
  import opened SenderQueueSpec
  import opened SenderQueueLedger

  // ----- Messages in order -----

  /** What the algorithm sends to `p`. */
  function AddressedTo(messages: seq<(Target, Message)>, p: nat): seq<Message>
    decreases |messages|
  {
    if messages == [] then []
    else (if ToPeer(messages[0].0, p) then [messages[0].1] else []) + AddressedTo(messages[1..], p)
  }

  /** What is passed on to `p`. */
  function PassedTo(sends: Sends, p: nat): seq<Message>
    decreases |sends|
  {
    if sends == [] then []
    else (if ToPeer(sends[0].0, p) && sends[0].1.Algo? then [sends[0].1.msg] else []) + PassedTo(sends[1..], p)
  }

  function HeldFor(deferred: seq<(nat, Message)>, p: nat): seq<Message>
    decreases |deferred|
  {
    if deferred == [] then []
    else (if deferred[0].0 == p then [deferred[0].1] else []) + HeldFor(deferred[1..], p)
  }

  /** What is queued for `p` until epoch `k`. */
  function QueueAt(outgoing: map<nat, Queue>, p: nat, k: Epoch): seq<Message> {
    if p in outgoing && k in outgoing[p] then outgoing[p][k] else []
  }

  /** Those among these messages that a node in epoch `own` handles. */
  function Handled(ms: seq<Message>, own: Epoch, maxFuture: nat): seq<Message>
    decreases |ms|
  {
    if ms == [] then []
    else (if Receive(ms[0], own, maxFuture).Welcome? then [ms[0]] else []) + Handled(ms[1..], own, maxFuture)
  }

  /** Those that are too early for it. */
  function Early(ms: seq<Message>, own: Epoch, maxFuture: nat): seq<Message>
    decreases |ms|
  {
    if ms == [] then []
    else (if Receive(ms[0], own, maxFuture).TooEarly? then [ms[0]] else []) + Early(ms[1..], own, maxFuture)
  }

  /** Those that belong to epoch `k`. */
  function Under(ms: seq<Message>, k: Epoch): seq<Message>
    decreases |ms|
  {
    if ms == [] then []
    else (if FirstEpoch(ms[0]) == k then [ms[0]] else []) + Under(ms[1..], k)
  }

  lemma Associates(a: seq<Message>, b: seq<Message>, c: seq<Message>)
    ensures (a + b) + c == a + (b + c) && a + [] == a && [] + c == c
  {
  }

  lemma {:induction false} PassedJoin(a: Sends, b: Sends, p: nat)
    ensures PassedTo(a + b, p) == PassedTo(a, p) + PassedTo(b, p)
    decreases |a|
  {
    if a == [] {
      assert a + b == b;
    } else {
      assert (a + b)[1..] == a[1..] + b && (a + b)[0] == a[0];
      PassedJoin(a[1..], b, p);
      var first := if ToPeer(a[0].0, p) && a[0].1.Algo? then [a[0].1.msg] else [];
      Associates(first, PassedTo(a[1..], p), PassedTo(b, p));
    }
  }

  lemma {:induction false} HeldJoin(a: seq<(nat, Message)>, b: seq<(nat, Message)>, p: nat)
    ensures HeldFor(a + b, p) == HeldFor(a, p) + HeldFor(b, p)
    decreases |a|
  {
    if a == [] {
      assert a + b == b;
    } else {
      assert (a + b)[1..] == a[1..] + b && (a + b)[0] == a[0];
      HeldJoin(a[1..], b, p);
      var first := if a[0].0 == p then [a[0].1] else [];
      Associates(first, HeldFor(a[1..], p), HeldFor(b, p));
    }
  }

  lemma {:induction false} UnderJoin(a: seq<Message>, b: seq<Message>, k: Epoch)
    ensures Under(a + b, k) == Under(a, k) + Under(b, k)
    decreases |a|
  {
    if a == [] {
      assert a + b == b;
    } else {
      assert (a + b)[1..] == a[1..] + b && (a + b)[0] == a[0];
      UnderJoin(a[1..], b, k);
      Associates(if FirstEpoch(a[0]) == k then [a[0]] else [], Under(a[1..], k), Under(b, k));
    }
  }

  lemma {:induction false} SortedJoin(a: seq<Message>, b: seq<Message>, own: Epoch, maxFuture: nat)
    ensures Handled(a + b, own, maxFuture) == Handled(a, own, maxFuture) + Handled(b, own, maxFuture)
    ensures Early(a + b, own, maxFuture) == Early(a, own, maxFuture) + Early(b, own, maxFuture)
    decreases |a|
  {
    hide Receive;
    if a == [] {
      assert a + b == b;
    } else {
      assert (a + b)[1..] == a[1..] + b;
      SortedJoin(a[1..], b, own, maxFuture);
    }
  }

  lemma Single(m: Message, own: Epoch, maxFuture: nat)
    ensures Handled([m], own, maxFuture) == if Receive(m, own, maxFuture).Welcome? then [m] else []
    ensures Early([m], own, maxFuture) == if Receive(m, own, maxFuture).TooEarly? then [m] else []
    ensures Handled([], own, maxFuture) == Early([], own, maxFuture) == []
  {
    hide Receive;
    assert [m][1..] == [];
  }

  lemma SingleUnder(m: Message, k: Epoch)
    ensures Under([m], k) == (if FirstEpoch(m) == k then [m] else []) && Under([], k) == []
  {
    hide FirstEpoch;
    assert [m][1..] == [];
  }

  lemma SingleSend(t: Target, m: Message, p: nat)
    ensures PassedTo([(t, Algo(m))], p) == (if ToPeer(t, p) then [m] else []) && PassedTo([], p) == []
  {
    var sends: Sends := [(t, Algo(m))];
    assert sends[1..] == [];
  }

  lemma SingleHeld(id: nat, m: Message, p: nat)
    ensures HeldFor([(id, m)], p) == (if id == p then [m] else []) && HeldFor([], p) == []
  {
    assert [(id, m)][1..] == [];
  }

  // ----- Calls of the algorithm -----

  /** Of these messages to `p`, what it handles is passed on, and what is too early is deferred. */
  ghost predicate Sorts(s: State, d: Deferral, ms: seq<Message>, p: nat)
    requires p in s.peerEpochs
  {
    && PassedTo(d.passed, p) == Handled(ms, s.peerEpochs[p], s.maxFuture)
    && HeldFor(d.deferred, p) == Early(ms, s.peerEpochs[p], s.maxFuture)
  }

  lemma DeferForSorts(s: State, id: nat, m: Message, p: nat)
    requires p in s.peerEpochs && id in s.peerEpochs
    ensures Sorts(s, DeferFor(s, id, m), if p == id then [m] else [], p)
  {
    hide IsPremature, IsObsolete, Receive, Handled, Early, PassedTo, HeldFor;
    SortedAsReceived(m, s.peerEpochs[id], s.maxFuture);
    Single(m, s.peerEpochs[p], s.maxFuture);
    SingleSend(Node(id), m, p);
    SingleHeld(id, m, p);
  }

  lemma {:induction false} SplitSorts(s: State, ids: set<nat>, m: Message, p: nat)
    requires p in s.peerEpochs && ids <= s.peerEpochs.Keys
    ensures Sorts(s, Split(s, Ascending(ids), m), if p in ids then [m] else [], p)
  {
    Single(m, s.peerEpochs[p], s.maxFuture);
    hide Receive, DeferFor, Handled, Early;
    if ids != {} {
      var id := Least(ids);
      var rest := ids - {id};
      SplitSorts(s, rest, m, p);
      assert Ascending(ids)[1..] == Ascending(rest);
      var first, others := DeferFor(s, id, m), Split(s, Ascending(rest), m);
      PassedJoin(first.passed, others.passed, p);
      HeldJoin(first.deferred, others.deferred, p);
      DeferForSorts(s, id, m, p);
    }
  }

  lemma DeferOneSorts(s: State, tm: (Target, Message), p: nat)
    requires p in s.peerEpochs
    ensures Sorts(s, DeferOne(s, tm), if ToPeer(tm.0, p) then [tm.1] else [], p)
  {
    hide Ascending, Split, DeferFor, Receive, IsAccepted, Handled, Early, PassedTo, HeldFor;
    Single(tm.1, s.peerEpochs[p], s.maxFuture);
    SingleSend(All, tm.1, p);
    SingleHeld(p, tm.1, p);
    match tm.0 {
      case Node(id) =>
        if id in s.peerEpochs {
          DeferForSorts(s, id, tm.1, p);
        }
      case All =>
        if AllAccept(s, tm.1) {
          assert IsAccepted(tm.1, s.peerEpochs[p], s.maxFuture);
          SortedAsReceived(tm.1, s.peerEpochs[p], s.maxFuture);
        } else {
          SplitSorts(s, s.peerEpochs.Keys, tm.1, p);
        }
    }
  }

  lemma {:induction false} DeferSorts(s: State, messages: seq<(Target, Message)>, p: nat)
    requires p in s.peerEpochs
    ensures Sorts(s, Defer(s, messages), AddressedTo(messages, p), p)
    decreases |messages|
  {
    if messages != [] {
      hide DeferOne, Receive, Handled, Early, PassedTo, HeldFor;
      DeferOneSorts(s, messages[0], p);
      DeferSorts(s, messages[1..], p);
      var first, rest := DeferOne(s, messages[0]), Defer(s, messages[1..]);
      PassedJoin(first.passed, rest.passed, p);
      HeldJoin(first.deferred, rest.deferred, p);
      var ms := if ToPeer(messages[0].0, p) then [messages[0].1] else [];
      SortedJoin(ms, AddressedTo(messages[1..], p), s.peerEpochs[p], s.maxFuture);
    }
  }

  lemma HeldUnder(deferred: seq<(nat, Message)>, p: nat, k: Epoch)
    requires deferred != []
    ensures var (id, m) := deferred[0];
            Under(HeldFor(deferred, p), k)
            == (if id == p && FirstEpoch(m) == k then [m] else []) + Under(HeldFor(deferred[1..], p), k)
  {
    hide FirstEpoch, Under;
    var (id, m) := deferred[0];
    var rest := HeldFor(deferred[1..], p);
    assert HeldFor(deferred, p) == if id == p then [m] + rest else rest;
    UnderJoin([m], rest, k);
    SingleUnder(m, k);
    assert [] + Under(rest, k) == Under(rest, k);
  }

  lemma {:induction false} PushAllAt(outgoing: map<nat, Queue>, deferred: seq<(nat, Message)>, p: nat, k: Epoch)
    ensures QueueAt(PushAll(outgoing, deferred), p, k) == QueueAt(outgoing, p, k) + Under(HeldFor(deferred, p), k)
    decreases |deferred|
  {
    if deferred == [] {
      assert QueueAt(outgoing, p, k) + [] == QueueAt(outgoing, p, k);
    } else {
      hide FirstEpoch, Push, QueueAt, Under, HeldFor;
      var (id, m) := deferred[0];
      PushAt(outgoing, id, m, p, k);
      PushAllAt(Push(outgoing, id, m), deferred[1..], p, k);
      HeldUnder(deferred, p, k);
      var here := if id == p && FirstEpoch(m) == k then [m] else [];
      Associates(QueueAt(outgoing, p, k), here, Under(HeldFor(deferred[1..], p), k));
    }
  }

  lemma PushAt(outgoing: map<nat, Queue>, id: nat, m: Message, p: nat, k: Epoch)
    ensures QueueAt(Push(outgoing, id, m), p, k)
            == QueueAt(outgoing, p, k) + if id == p && FirstEpoch(m) == k then [m] else []
  {
    hide FirstEpoch;
  }

  lemma SortsMeans(s: State, d: Deferral, ms: seq<Message>, p: nat)
    requires p in s.peerEpochs && Sorts(s, d, ms, p)
    ensures PassedTo(d.passed, p) == Handled(ms, s.peerEpochs[p], s.maxFuture)
    ensures HeldFor(d.deferred, p) == Early(ms, s.peerEpochs[p], s.maxFuture)
  {
  }

  /** What a call of the algorithm sends to a tracked peer: what the peer would handle is passed on, in
      order, after our own announcement; what would be too early is appended to the queue for its epoch,
      in order. */
  lemma SentInOrder(s: State, r: AlgoResult, p: nat, k: Epoch)
    requires QueueInv(s) && !s.isRemoved && p in Step(s, AlgoCall(r)).0.peerEpochs
    ensures var (t, sends) := Step(s, AlgoCall(r));
            var ms, own := AddressedTo(Messages(r), p), t.peerEpochs[p];
            && PassedTo(sends, p) == Handled(ms, own, s.maxFuture)
            && QueueAt(t.outgoing, p, k)
               == QueueAt(AfterOutput(s, r).outgoing, p, k) + Under(Early(ms, own, s.maxFuture), k)
            && forall i :: 0 <= i < |sends| && sends[i].1.EpochStarted? ==> i == 0
  {
    hide HandleBatches, Announcement, Defer, PushAll, Receive, QueueAt, Sorts;
    var s1, s2 := s.(algoEpoch := r.epoch), AfterOutput(s, r);
    assert QueueOk(s, p);
    AfterOutputKeeps(s, r, p);
    if r.step.Some? {
      var d := Defer(s2, Messages(r));
      AnnouncementIsNoMessage(s1, r.step.value.output, p);
      DeferIsAlgo(s2, Messages(r));
      PassedJoin(Announcement(s1, r.step.value.output), d.passed, p);
      PushAllAt(s2.outgoing, d.deferred, p, k);
      DeferSorts(s2, Messages(r), p);
      assert Sorts(s2, d, AddressedTo(Messages(r), p), p);
      SortsMeans(s2, d, AddressedTo(Messages(r), p), p);
    }
  }

  lemma AnnouncementIsNoMessage(s: State, bs: seq<Batch>, p: nat)
    ensures PassedTo(Announcement(s, bs), p) == [] && |Announcement(s, bs)| <= 1
  {
    hide HandleBatches, AnyRemovesUs;
    var announcement := [(All, EpochStarted(s.algoEpoch))];
    assert announcement[1..] == [];
  }

  // ----- Announcements -----

  predicate IsAscending(ms: seq<Message>) {
    forall i, j :: 0 <= i < j < |ms| ==> Le(FirstEpoch(ms[i]), FirstEpoch(ms[j]))
  }

  /** Those that a node in epoch `own` does not discard as late. */
  function InTime(ms: seq<Message>, own: Epoch, maxFuture: nat): seq<Message>
    decreases |ms|
  {
    if ms == [] then []
    else (if Receive(ms[0], own, maxFuture).TooLate? then [] else [ms[0]]) + InTime(ms[1..], own, maxFuture)
  }

  lemma {:induction false} SendAllInOrder(id: nat, ms: seq<Message>, epoch: Epoch, maxFuture: nat)
    ensures PassedTo(SendAll(id, ms, epoch), id) == InTime(ms, epoch, maxFuture)
    ensures |PassedTo(SendAll(id, ms, epoch), id)| == |SendAll(id, ms, epoch)|
    decreases |ms|
  {
    if ms != [] {
      hide IsObsolete, Receive, PassedTo;
      SortedAsReceived(ms[0], epoch, maxFuture);
      SendAllInOrder(id, ms[1..], epoch, maxFuture);
      SingleSend(Node(id), ms[0], id);
      var rest := SendAll(id, ms[1..], epoch);
      PassedJoin([(Node(id), Algo(ms[0]))], rest, id);
      assert [] + rest == rest && [] + InTime(ms[1..], epoch, maxFuture) == InTime(ms[1..], epoch, maxFuture);
    }
  }

  lemma {:induction false} InTimeUnder(ms: seq<Message>, own: Epoch, maxFuture: nat, at: Epoch, k: Epoch)
    requires forall i :: 0 <= i < |ms| ==> FirstEpoch(ms[i]) == at
    ensures Under(InTime(ms, own, maxFuture), k) == if k == at then InTime(ms, own, maxFuture) else []
    ensures forall i :: 0 <= i < |InTime(ms, own, maxFuture)| ==> FirstEpoch(InTime(ms, own, maxFuture)[i]) == at
    decreases |ms|
  {
    if ms != [] {
      hide FirstEpoch, Receive, Under;
      InTimeUnder(ms[1..], own, maxFuture, at, k);
      var rest := InTime(ms[1..], own, maxFuture);
      UnderJoin([ms[0]], rest, k);
      SingleUnder(ms[0], k);
      assert [] + rest == rest && [] + Under(rest, k) == Under(rest, k);
    }
  }

  lemma AscendingJoin(a: seq<Message>, b: seq<Message>, l: Epoch, keys: set<Epoch>)
    requires forall i :: 0 <= i < |a| ==> FirstEpoch(a[i]) == l
    requires forall i :: 0 <= i < |b| ==> FirstEpoch(b[i]) in keys - {l}
    requires IsAscending(b) && IsEarliest(keys, l)
    ensures IsAscending(a + b) && forall i :: 0 <= i < |a + b| ==> FirstEpoch((a + b)[i]) in keys
  {
    hide FirstEpoch;
    var c := a + b;
    forall i, j | 0 <= i < j < |c| ensures Le(FirstEpoch(c[i]), FirstEpoch(c[j])) {
      if j < |a| {
        assert FirstEpoch(c[i]) == FirstEpoch(c[j]);
      } else if i < |a| {
        assert c[j] == b[j - |a|] && FirstEpoch(c[j]) in keys;
      } else {
        assert c[i] == b[i - |a|] && c[j] == b[j - |a|];
      }
    }
  }

  lemma {:induction false} FlushInOrder(
    id: nat, queue: Queue, keys: set<Epoch>, epoch: Epoch, maxFuture: nat, k: Epoch)
    requires keys <= queue.Keys && InPlace(queue)
    ensures var sends := Flush(id, queue, keys, epoch);
            var ms := PassedTo(sends, id);
            && |ms| == |sends| && IsAscending(ms)
            && (forall i :: 0 <= i < |ms| ==> FirstEpoch(ms[i]) in keys)
            && Under(ms, k) == if k in keys then InTime(queue[k], epoch, maxFuture) else []
  {
    if keys != {} {
      hide Earliest, SendAll, InTime, FirstEpoch, Under, PassedTo, Lt, IsAscending, IsEarliest;
      var l := Earliest(keys);
      assert IsEarliest(keys, l);
      FlushInOrder(id, queue, keys - {l}, epoch, maxFuture, k);
      SendAllInOrder(id, queue[l], epoch, maxFuture);
      InTimeUnder(queue[l], epoch, maxFuture, l, k);
      var first, rest := SendAll(id, queue[l], epoch), Flush(id, queue, keys - {l}, epoch);
      PassedJoin(first, rest, id);
      UnderJoin(PassedTo(first, id), PassedTo(rest, id), k);
      AscendingJoin(PassedTo(first, id), PassedTo(rest, id), l, keys);
    }
  }

  /** When a peer announces an epoch and stays, what is due is sent by ascending epochs, and within
      an epoch in the order in which it was queued, except what the peer would discard as late.
      Nothing else is sent. */
  lemma FlushedInOrder(s: State, p: nat, epoch: Epoch, k: Epoch)
    requires QueueInv(s) && !s.isRemoved && p != s.ourId && p in Step(s, Announced(p, epoch)).0.peerEpochs
    ensures var (t, sends) := Step(s, Announced(p, epoch));
            var ms := PassedTo(sends, p);
            && |ms| == |sends| && IsAscending(ms)
            && (if Le(k, epoch) then
                  Under(ms, k) == InTime(QueueAt(s.outgoing, p, k), epoch, s.maxFuture) && QueueAt(t.outgoing, p, k) == []
                else Under(ms, k) == [] && QueueAt(t.outgoing, p, k) == QueueAt(s.outgoing, p, k))
  {
    hide Flush, RemoveIfOld, Le, FirstEpoch, Receive, PassedTo;
    assert PassedTo([], p) == [] by {
      SingleSend(All, HoneyBadger(0, 0, 0), p);
    }
    assert QueueOk(s, p);
    NotedRemoval(s, p, epoch);
    if p in s.outgoing {
      FlushInOrder(p, s.outgoing[p], KeysUpTo(s.outgoing[p], epoch), epoch, s.maxFuture, k);
    }
  }
}
