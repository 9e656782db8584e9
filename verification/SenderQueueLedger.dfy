/** Where the messages go: for every message and every tracked peer, each copy is emitted,
    or queued, or was dropped for a reason. */
module SenderQueueLedger {
  import opened Options
  import opened Orders
  import opened SenderQueueSpec

  // ----- The receiver -----

  datatype FaultKind = UnexpectedDhbMessageEra | UnexpectedHbMessageEpoch

  /** What becomes of a message: its sender is reported, or it is discarded, or handled. */
  datatype Reception = TooEarly(fault: FaultKind) | TooLate | Welcome

  /** How Dynamic Honey Badger in epoch `own` receives a message: only those of its own era get
      any further, and those of Honey Badger only within its window. */
  function Receive(m: Message, own: Epoch, maxFuture: nat): Reception {
    if m.era > own.era then TooEarly(UnexpectedDhbMessageEra)
    else if m.era < own.era then TooLate
    else
      match m
      case HoneyBadger(_, epoch, _) =>
        if epoch > own.hb + maxFuture then TooEarly(UnexpectedHbMessageEpoch)
        else if epoch < own.hb then TooLate
        else Welcome
      case KeyGen(_, _) => Welcome
      case SignedVote(_, _) => Welcome
  }

  /** The sender queue sorts messages as the receiver will. */
  lemma SortedAsReceived(m: Message, them: Epoch, maxFuture: nat)
    ensures IsPremature(m, them, maxFuture) <==> Receive(m, them, maxFuture).TooEarly?
    ensures IsObsolete(m, them) <==> Receive(m, them, maxFuture).TooLate?
    ensures IsAccepted(m, them, maxFuture) <==> Receive(m, them, maxFuture).Welcome?
  {
  }

  // ----- Counting -----

  function CountIn(queue: Queue, m: Message): nat {
    if FirstEpoch(m) in queue then multiset(queue[FirstEpoch(m)])[m] else 0
  }

  /** How often `m` is queued for `p`. */
  function Queued(outgoing: map<nat, Queue>, p: nat, m: Message): nat {
    if p in outgoing then CountIn(outgoing[p], m) else 0
  }

  function ToPeer(t: Target, p: nat): bool {
    t == All || t == Node(p)
  }

  /** How often the algorithm sends `m` to `p`. */
  function Addressed(messages: seq<(Target, Message)>, p: nat, m: Message): nat
    decreases |messages|
  {
    if messages == [] then 0
    else (if ToPeer(messages[0].0, p) && messages[0].1 == m then 1 else 0) + Addressed(messages[1..], p, m)
  }

  /** How often `m` is passed on to `p`. */
  function Emitted(sends: Sends, p: nat, m: Message): nat
    decreases |sends|
  {
    if sends == [] then 0
    else (if ToPeer(sends[0].0, p) && sends[0].1 == Algo(m) then 1 else 0) + Emitted(sends[1..], p, m)
  }

  function DeferredFor(deferred: seq<(nat, Message)>, p: nat, m: Message): nat
    decreases |deferred|
  {
    if deferred == [] then 0
    else (if deferred[0] == (p, m) then 1 else 0) + DeferredFor(deferred[1..], p, m)
  }

  lemma {:induction false} EmittedJoin(a: Sends, b: Sends, p: nat, m: Message)
    ensures Emitted(a + b, p, m) == Emitted(a, p, m) + Emitted(b, p, m)
    decreases |a|
  {
    if a == [] {
      assert a + b == b;
    } else {
      EmittedJoin(a[1..], b, p, m);
      assert (a + b)[1..] == a[1..] + b;
    }
  }

  lemma {:induction false} DeferredJoin(a: seq<(nat, Message)>, b: seq<(nat, Message)>, p: nat, m: Message)
    ensures DeferredFor(a + b, p, m) == DeferredFor(a, p, m) + DeferredFor(b, p, m)
    decreases |a|
  {
    if a == [] {
      assert a + b == b;
    } else {
      DeferredJoin(a[1..], b, p, m);
      assert (a + b)[1..] == a[1..] + b;
    }
  }

  // ----- Queues in order -----

  /** Messages are queued under the first epoch in which they can be handled. */
  ghost predicate InPlace(queue: Queue) {
    forall k, i :: k in queue && 0 <= i < |queue[k]| ==> FirstEpoch(queue[k][i]) == k
  }

  /** Everything that is queued is for a tracked peer, and for later than its epoch. */
  ghost predicate QueueOk(s: State, p: nat) {
    p in s.outgoing ==>
      && p in s.peerEpochs
      && InPlace(s.outgoing[p])
      && forall k :: k in s.outgoing[p] ==> Lt(s.peerEpochs[p], k)
  }

  ghost predicate QueueInv(s: State) {
    forall p :: QueueOk(s, p)
  }

  // ----- Deferring -----

  lemma PrematureIsLater(m: Message, them: Epoch, maxFuture: nat)
    requires IsPremature(m, them, maxFuture)
    ensures Lt(them, FirstEpoch(m)) && !IsObsolete(m, them)
  {
  }

  /** What one addressed copy becomes. */
  ghost predicate Balances(s: State, d: Deferral, addressed: nat, p: nat, m: Message)
    requires p in s.peerEpochs
  {
    var them := s.peerEpochs[p];
    && Emitted(d.passed, p, m) == (if IsAccepted(m, them, s.maxFuture) then addressed else 0)
    && DeferredFor(d.deferred, p, m) == (if IsPremature(m, them, s.maxFuture) then addressed else 0)
  }

  lemma {:induction false} SplitBalances(s: State, ids: set<nat>, m: Message, p: nat, n: Message)
    requires p in s.peerEpochs && ids <= s.peerEpochs.Keys
    ensures Balances(s, Split(s, Ascending(ids), m), if m == n && p in ids then 1 else 0, p, n)
  {
    if ids != {} {
      var id := Least(ids);
      var rest := ids - {id};
      SplitBalances(s, rest, m, p, n);
      assert Ascending(ids)[1..] == Ascending(rest);
      var first, others := DeferFor(s, id, m), Split(s, Ascending(rest), m);
      EmittedJoin(first.passed, others.passed, p, n);
      DeferredJoin(first.deferred, others.deferred, p, n);
      DeferForBalances(s, id, m, p, n);
    }
  }

  lemma DeferForBalances(s: State, id: nat, m: Message, p: nat, n: Message)
    requires p in s.peerEpochs && id in s.peerEpochs
    ensures Balances(s, DeferFor(s, id, m), if m == n && p == id then 1 else 0, p, n)
  {
    PrematureNotObsolete(m, s.peerEpochs[id], s.maxFuture);
    assert Emitted([], p, n) == 0 && DeferredFor([], p, n) == 0;
    assert [(Node(id), Algo(m))][1..] == [] && [(id, m)][1..] == [];
  }

  lemma PrematureNotObsolete(m: Message, them: Epoch, maxFuture: nat)
    ensures !(IsPremature(m, them, maxFuture) && IsObsolete(m, them))
  {
  }

  lemma DeferOneBalances(s: State, tm: (Target, Message), p: nat, m: Message)
    requires p in s.peerEpochs
    ensures Balances(s, DeferOne(s, tm), if ToPeer(tm.0, p) && tm.1 == m then 1 else 0, p, m)
  {
    hide Ascending, Split;
    assert Emitted([], p, m) == 0 && DeferredFor([], p, m) == 0;
    match tm.0 {
      case Node(id) =>
        if id in s.peerEpochs {
          DeferForBalances(s, id, tm.1, p, m);
        }
      case All =>
        if AllAccept(s, tm.1) {
          assert IsAccepted(tm.1, s.peerEpochs[p], s.maxFuture);
          assert [(All, Algo(tm.1))][1..] == [];
        } else {
          SplitBalances(s, s.peerEpochs.Keys, tm.1, p, m);
        }
    }
  }

  /** For a tracked peer, accepted messages are passed on, premature ones are deferred, and
      the others are dropped: whether they were sent to it or to everyone. */
  lemma {:induction false} DeferBalances(s: State, messages: seq<(Target, Message)>, p: nat, m: Message)
    requires p in s.peerEpochs
    ensures Balances(s, Defer(s, messages), Addressed(messages, p, m), p, m)
    decreases |messages|
  {
    if messages != [] {
      hide DeferOne;
      DeferOneBalances(s, messages[0], p, m);
      DeferBalances(s, messages[1..], p, m);
      var first, rest := DeferOne(s, messages[0]), Defer(s, messages[1..]);
      EmittedJoin(first.passed, rest.passed, p, m);
      DeferredJoin(first.deferred, rest.deferred, p, m);
    }
  }

  /** Only messages that are premature for a tracked peer are deferred. */
  ghost predicate OnlyPremature(s: State, deferred: seq<(nat, Message)>) {
    forall i :: 0 <= i < |deferred| ==>
                  deferred[i].0 in s.peerEpochs
                  && IsPremature(deferred[i].1, s.peerEpochs[deferred[i].0], s.maxFuture)
  }

  lemma {:induction false} SplitOnlyPremature(s: State, ids: seq<nat>, m: Message)
    requires forall id :: id in ids ==> id in s.peerEpochs
    ensures OnlyPremature(s, Split(s, ids, m).deferred)
    decreases |ids|
  {
    if ids != [] {
      SplitOnlyPremature(s, ids[1..], m);
    }
  }

  lemma {:induction false} DeferOnlyPremature(s: State, messages: seq<(Target, Message)>)
    ensures OnlyPremature(s, Defer(s, messages).deferred)
    decreases |messages|
  {
    if messages != [] {
      hide Ascending, AllAccept, Split;
      SplitOnlyPremature(s, Ascending(s.peerEpochs.Keys), messages[0].1);
      DeferOnlyPremature(s, messages[1..]);
    }
  }

  // ----- Queueing -----

  lemma PushCounts(outgoing: map<nat, Queue>, id: nat, m: Message, p: nat, n: Message)
    ensures Queued(Push(outgoing, id, m), p, n) == Queued(outgoing, p, n) + if (id, m) == (p, n) then 1 else 0
  {
    hide FirstEpoch;
    var queue := if id in outgoing then outgoing[id] else map[];
    var key := FirstEpoch(m);
    var before := if key in queue then queue[key] else [];
    assert multiset(before + [m]) == multiset(before) + multiset{m};
  }

  lemma {:induction false} PushAllCounts(outgoing: map<nat, Queue>, deferred: seq<(nat, Message)>, p: nat, m: Message)
    ensures Queued(PushAll(outgoing, deferred), p, m) == Queued(outgoing, p, m) + DeferredFor(deferred, p, m)
    decreases |deferred|
  {
    if deferred != [] {
      hide Push, Queued;
      PushCounts(outgoing, deferred[0].0, deferred[0].1, p, m);
      PushAllCounts(Push(outgoing, deferred[0].0, deferred[0].1), deferred[1..], p, m);
    }
  }

  lemma {:induction false} PushAllOk(s: State, deferred: seq<(nat, Message)>)
    requires QueueInv(s) && OnlyPremature(s, deferred)
    ensures QueueInv(s.(outgoing := PushAll(s.outgoing, deferred)))
    decreases |deferred|
  {
    if deferred != [] {
      hide QueueInv, IsPremature, Push;
      var s1 := s.(outgoing := Push(s.outgoing, deferred[0].0, deferred[0].1));
      PushOk(s, deferred[0].0, deferred[0].1);
      PushAllOk(s1, deferred[1..]);
      assert s1.(outgoing := PushAll(s1.outgoing, deferred[1..])) == s.(outgoing := PushAll(s.outgoing, deferred));
    }
  }

  lemma PushOk(s: State, id: nat, m: Message)
    requires QueueInv(s) && id in s.peerEpochs && IsPremature(m, s.peerEpochs[id], s.maxFuture)
    ensures QueueInv(s.(outgoing := Push(s.outgoing, id, m)))
  {
    PrematureIsLater(m, s.peerEpochs[id], s.maxFuture);
    hide IsPremature, FirstEpoch, Lt;
    var s1 := s.(outgoing := Push(s.outgoing, id, m));
    forall p ensures QueueOk(s1, p) {
      assert QueueOk(s, p);
    }
  }

  // ----- Removals -----

  /** The epochs of the batches after which `p`, one of these participants, is none any more. */
  function DropEpochs(participants: set<nat>, bs: seq<Batch>, p: nat): set<Epoch>
    decreases |bs|
  {
    if bs == [] then {}
    else
      (if Drops(participants, bs[0], p) then {bs[0].epoch} else {})
      + DropEpochs(ParticipantsAfter(participants, bs[0]), bs[1..], p)
  }

  predicate Drops(participants: set<nat>, b: Batch, p: nat) {
    b.participants.Some? && p in participants && p !in b.participants.value
  }

  function ParticipantsAfter(participants: set<nat>, b: Batch): set<nat> {
    if b.participants.Some? then b.participants.value else participants
  }

  /** A removed peer has left the given epoch behind, and so have we. */
  ghost predicate IsPast(s: State, p: nat, last: Epoch) {
    Lt(last, s.algoEpoch) && p in s.peerEpochs && Lt(last, s.peerEpochs[p])
  }

  /** A peer keeps its queue and its epoch, or it loses its whole queue, as it has left behind
      its last epoch, which is one of these. */
  ghost predicate KeepsOrRemoves(s: State, s': State, p: nat, lasts: set<Epoch>) {
    && s'.algoEpoch == s.algoEpoch && s'.maxFuture == s.maxFuture && s'.ourId == s.ourId
    && (p in s'.outgoing ==> p in s.outgoing && s'.outgoing[p] == s.outgoing[p]
                             && p in s'.peerEpochs && p in s.peerEpochs && s'.peerEpochs[p] == s.peerEpochs[p])
    && (p in s.outgoing && p !in s'.outgoing ==> exists last :: last in lasts && IsPast(s, p, last))
  }

  lemma KeepsTwice(s: State, t: State, u: State, p: nat, lasts: set<Epoch>, more: set<Epoch>)
    requires KeepsOrRemoves(s, t, p, lasts) && KeepsOrRemoves(t, u, p, more) && QueueOk(s, p)
    ensures KeepsOrRemoves(s, u, p, lasts + more)
  {
    hide Lt;
    if p in s.outgoing && p !in u.outgoing {
      if p in t.outgoing {
        var last :| last in more && IsPast(t, p, last);
        assert last in lasts + more && IsPast(s, p, last);
      } else {
        var last :| last in lasts && IsPast(s, p, last);
        assert last in lasts + more;
      }
    }
  }

  lemma KeepsQueueOk(s: State, s': State, p: nat, lasts: set<Epoch>)
    requires QueueOk(s, p) && KeepsOrRemoves(s, s', p, lasts)
    ensures QueueOk(s', p)
  {
    hide Lt, InPlace;
  }

  /** The last epoch that a peer is scheduled for. */
  function LastEpochs(s: State, p: nat): set<Epoch> {
    if p in s.lastEpochs then {s.lastEpochs[p]} else {}
  }

  lemma RemoveIfOldKeeps(s: State, id: nat, p: nat)
    requires QueueOk(s, p)
    ensures KeepsOrRemoves(s, RemoveIfOld(s, id).0, p, if p == id then LastEpochs(s, p) else {})
  {
    hide Lt, InPlace;
    if id == p && RemoveIfOld(s, id).1 && p in s.outgoing && id != s.ourId {
      assert s.lastEpochs[id] in LastEpochs(s, p) && IsPast(s, p, s.lastEpochs[id]);
    }
  }

  lemma RemoveAfterKeeps(s: State, id: nat, last: Epoch, p: nat)
    requires QueueOk(s, p)
    ensures KeepsOrRemoves(s, RemoveAfter(s, id, last), p, if p == id then {last} else {})
  {
    hide RemoveIfOld, Lt, InPlace;
    var s1 := s.(lastEpochs := s.lastEpochs[id := last]);
    RemoveIfOldKeeps(s1, id, p);
    if p in s.outgoing && p !in RemoveIfOld(s1, id).0.outgoing {
      var e :| e in LastEpochs(s1, p) && IsPast(s1, p, e);
      assert e == last && IsPast(s, p, e);
    }
  }

  lemma {:induction false} RemoveAllKeeps(s: State, ids: seq<nat>, last: Epoch, p: nat)
    requires QueueOk(s, p)
    ensures KeepsOrRemoves(s, RemoveAll(s, ids, last), p, if p in ids then {last} else {})
    decreases |ids|
  {
    hide RemoveAfter, Lt, InPlace;
    if ids == [] {
      SameKeeps(s, p, {});
    } else {
      hide KeepsOrRemoves, QueueOk;
      var s1 := RemoveAfter(s, ids[0], last);
      RemoveAfterKeeps(s, ids[0], last, p);
      var lasts, more := if p == ids[0] then {last} else {}, if p in ids[1..] then {last} else {};
      KeepsQueueOk(s, s1, p, lasts);
      RemoveAllKeeps(s1, ids[1..], last, p);
      KeepsTwice(s, s1, RemoveAll(s1, ids[1..], last), p, lasts, more);
      assert lasts + more == if p in ids then {last} else {};
    }
  }

  lemma SameKeeps(s: State, p: nat, lasts: set<Epoch>)
    requires QueueOk(s, p)
    ensures KeepsOrRemoves(s, s, p, lasts)
  {
  }

  lemma {:induction false} AddCandidatesKeeps(s: State, ids: seq<nat>, at: Epoch, p: nat)
    requires QueueOk(s, p)
    ensures KeepsOrRemoves(s, AddCandidates(s, ids, at), p, {})
    ensures AddCandidates(s, ids, at).participants == s.participants
    decreases |ids|
  {
    hide Lt, InPlace;
    if ids != [] {
      var s1 := AddCandidate(s, ids[0], at);
      assert KeepsOrRemoves(s, s1, p, {});
      AddCandidatesKeeps(s1, ids[1..], at, p);
      hide KeepsOrRemoves, AddCandidate;
      KeepsTwice(s, s1, AddCandidates(s1, ids[1..], at), p, {}, {});
    }
  }

  lemma HandleBatchKeeps(s: State, b: Batch, p: nat)
    requires QueueOk(s, p)
    ensures KeepsOrRemoves(s, HandleBatch(s, b), p, if Drops(s.participants, b, p) then {b.epoch} else {})
    ensures HandleBatch(s, b).participants == ParticipantsAfter(s.participants, b)
  {
    if b.participants.None? {
      SameKeeps(s, p, {});
    } else {
      hide KeepsOrRemoves, QueueOk, AddCandidates, RemoveAll;
      var next := b.participants.value;
      var s1 := AddCandidates(s, Ascending(next), b.epoch);
      AddCandidatesKeeps(s, Ascending(next), b.epoch, p);
      KeepsQueueOk(s, s1, p, {});
      var ids := Ascending(s1.participants - next);
      RemoveAllKeeps(s1, ids, b.epoch, p);
      hide Ascending;
      assert p in ids <==> Drops(s.participants, b, p);
      var lasts := if p in ids then {b.epoch} else {};
      KeepsTwice(s, s1, RemoveAll(s1, ids, b.epoch), p, {}, lasts);
      assert {} + lasts == lasts;
      ParticipantsDoNotMatter(s, RemoveAll(s1, ids, b.epoch), next, p, lasts);
    }
  }

  lemma ParticipantsDoNotMatter(s: State, s': State, next: set<nat>, p: nat, lasts: set<Epoch>)
    requires KeepsOrRemoves(s, s', p, lasts)
    ensures KeepsOrRemoves(s, s'.(participants := next), p, lasts)
  {
  }

  lemma {:induction false} HandleBatchesKeeps(s: State, bs: seq<Batch>, p: nat)
    requires QueueOk(s, p)
    ensures KeepsOrRemoves(s, HandleBatches(s, bs), p, DropEpochs(s.participants, bs, p))
    ensures QueueOk(HandleBatches(s, bs), p)
    decreases |bs|
  {
    hide HandleBatch, KeepsOrRemoves, QueueOk, Drops, ParticipantsAfter;
    if bs == [] {
      SameKeeps(s, p, {});
    } else {
      var s1 := HandleBatch(s, bs[0]);
      HandleBatchKeeps(s, bs[0], p);
      var lasts := if Drops(s.participants, bs[0], p) then {bs[0].epoch} else {};
      KeepsQueueOk(s, s1, p, lasts);
      HandleBatchesKeeps(s1, bs[1..], p);
      KeepsTwice(s, s1, HandleBatches(s1, bs[1..]), p, lasts, DropEpochs(s1.participants, bs[1..], p));
    }
  }

  // ----- Flushing -----

  lemma SendOneCounts(id: nat, n: Message, epoch: Epoch, p: nat, m: Message)
    ensures var first: Sends := if IsObsolete(n, epoch) then [] else [(Node(id), Algo(n))];
            Emitted(first, p, m) == if p == id && !IsObsolete(m, epoch) && n == m then 1 else 0
  {
    hide IsObsolete;
    assert [(Node(id), Algo(n))][1..] == [];
  }

  lemma CountHead(messages: seq<Message>, m: Message)
    requires messages != []
    ensures multiset(messages)[m] == (if messages[0] == m then 1 else 0) + multiset(messages[1..])[m]
  {
    assert messages == [messages[0]] + messages[1..];
  }

  lemma {:induction false} SendAllCounts(id: nat, messages: seq<Message>, epoch: Epoch, p: nat, m: Message)
    ensures Emitted(SendAll(id, messages, epoch), p, m)
            == if p == id && !IsObsolete(m, epoch) then multiset(messages)[m] else 0
    decreases |messages|
  {
    hide IsObsolete, Emitted;
    if messages == [] {
      EmptyCounts(p, m);
    } else {
      var first: Sends := if IsObsolete(messages[0], epoch) then [] else [(Node(id), Algo(messages[0]))];
      SendAllCounts(id, messages[1..], epoch, p, m);
      EmittedJoin(first, SendAll(id, messages[1..], epoch), p, m);
      SendOneCounts(id, messages[0], epoch, p, m);
      CountHead(messages, m);
    }
  }

  lemma EmptyCounts(p: nat, m: Message)
    ensures Addressed([], p, m) == 0 && Emitted([], p, m) == 0
  {
  }

  lemma OtherKeyEmpty(messages: seq<Message>, k: Epoch, m: Message)
    requires forall i :: 0 <= i < |messages| ==> FirstEpoch(messages[i]) == k
    requires FirstEpoch(m) != k
    ensures multiset(messages)[m] == 0
  {
    hide FirstEpoch;
    assert forall i :: 0 <= i < |messages| ==> messages[i] != m;
    assert m !in messages;
  }

  lemma {:induction false} FlushCounts(id: nat, queue: Queue, keys: set<Epoch>, epoch: Epoch, p: nat, m: Message)
    requires keys <= queue.Keys && InPlace(queue)
    ensures Emitted(Flush(id, queue, keys, epoch), p, m)
            == if p == id && !IsObsolete(m, epoch) && FirstEpoch(m) in keys then CountIn(queue, m) else 0
  {
    if keys != {} {
      hide Earliest, SendAll, IsObsolete;
      var k := Earliest(keys);
      assert k in keys;
      FlushCounts(id, queue, keys - {k}, epoch, p, m);
      SendAllCounts(id, queue[k], epoch, p, m);
      EmittedJoin(SendAll(id, queue[k], epoch), Flush(id, queue, keys - {k}, epoch), p, m);
      if FirstEpoch(m) != k {
        OtherKeyEmpty(queue[k], k, m);
      }
    }
  }

  // ----- The books -----

  datatype Call = AlgoCall(result: AlgoResult) | Announced(sender: nat, epoch: Epoch)

  function Step(s: State, c: Call): (State, Sends) {
    match c
    case AlgoCall(r) => HandleAlgo(s, r)
    case Announced(sender, epoch) => HandleAnnouncement(s, sender, epoch)
  }

  /** For one message and one peer: how often the algorithm has sent it while the peer was
      tracked, how often it was passed on, dropped because the peer would discard it as late, or
      dropped with the peer. */
  datatype Ledger = Ledger(addressed: nat, emitted: nat, late: nat, dropped: nat)

  /** What one call adds. */
  function Entries(s: State, c: Call, p: nat, m: Message): Ledger {
    if s.isRemoved then Ledger(0, 0, 0, 0)
    else
      match c
      case AlgoCall(r) =>
        var s1 := AfterOutput(s, r);
        var dropped := if p in s.outgoing && p !in s1.outgoing then Queued(s.outgoing, p, m) else 0;
        if p !in s1.peerEpochs then Ledger(0, 0, 0, dropped)
        else
          var addressed := Addressed(Messages(r), p, m);
          Ledger(
            addressed,
            Emitted(Step(s, c).1, p, m),
            if Receive(m, s1.peerEpochs[p], s.maxFuture).TooLate? then addressed else 0,
            dropped)
      case Announced(sender, epoch) =>
        if p != sender || p !in s.outgoing then Ledger(0, 0, 0, 0)
        else if p !in Step(s, c).0.outgoing then Ledger(0, 0, 0, Queued(s.outgoing, p, m))
        else
          Ledger(
            0,
            Emitted(Step(s, c).1, p, m),
            if Le(FirstEpoch(m), epoch) && Receive(m, epoch, s.maxFuture).TooLate? then Queued(s.outgoing, p, m) else 0,
            0)
  }

  function Output(r: AlgoResult): seq<Batch> {
    if r.step.None? then [] else r.step.value.output
  }

  lemma AnnouncementEmitsNothing(s: State, bs: seq<Batch>, p: nat, m: Message)
    ensures Emitted(Announcement(s, bs), p, m) == 0
  {
    hide HandleBatches, AnyRemovesUs;
    assert [(All, EpochStarted(s.algoEpoch))][1..] == [];
  }

  lemma AfterOutputKeeps(s: State, r: AlgoResult, p: nat)
    requires QueueOk(s, p)
    ensures KeepsOrRemoves(s.(algoEpoch := r.epoch), AfterOutput(s, r), p, DropEpochs(s.participants, Output(r), p))
    ensures QueueOk(AfterOutput(s, r), p)
  {
    hide HandleBatches;
    var s1 := s.(algoEpoch := r.epoch);
    if r.step.Some? {
      HandleBatchesKeeps(s1, r.step.value.output, p);
    } else {
      SameKeeps(s1, p, {});
    }
  }

  lemma ApplyBalances(s: State, r: AlgoResult, p: nat, m: Message)
    requires QueueInv(s) && !s.isRemoved
    ensures var e := Entries(s, AlgoCall(r), p, m);
            Queued(s.outgoing, p, m) + e.addressed
            == Queued(Step(s, AlgoCall(r)).0.outgoing, p, m) + e.emitted + e.late + e.dropped
  {
    hide HandleBatches, Announcement, Defer, PushAll, Addressed, Emitted, IsPremature, IsObsolete, CountIn, Receive;
    var s1, s2 := s.(algoEpoch := r.epoch), AfterOutput(s, r);
    assert QueueOk(s, p);
    AfterOutputKeeps(s, r, p);
    if r.step.Some? {
      var d := Defer(s2, Messages(r));
      AnnouncementEmitsNothing(s1, r.step.value.output, p, m);
      EmittedJoin(Announcement(s1, r.step.value.output), d.passed, p, m);
      PushAllCounts(s2.outgoing, d.deferred, p, m);
      DeferOnlyPremature(s2, Messages(r));
      if p in s2.peerEpochs {
        DeferBalances(s2, Messages(r), p, m);
        SortedAsReceived(m, s2.peerEpochs[p], s2.maxFuture);
        PrematureNotObsolete(m, s2.peerEpochs[p], s2.maxFuture);
      } else {
        NothingDeferred(s2, d.deferred, p, m);
      }
    } else {
      EmptyCounts(p, m);
    }
  }

  lemma {:induction false} NothingDeferred(s: State, deferred: seq<(nat, Message)>, p: nat, m: Message)
    requires OnlyPremature(s, deferred) && p !in s.peerEpochs
    ensures DeferredFor(deferred, p, m) == 0
    decreases |deferred|
  {
    if deferred != [] {
      NothingDeferred(s, deferred[1..], p, m);
    }
  }

  lemma AnnouncedBalances(s: State, sender: nat, epoch: Epoch, p: nat, m: Message)
    requires QueueInv(s) && !s.isRemoved && sender != s.ourId
    ensures var c := Announced(sender, epoch);
            var e := Entries(s, c, p, m);
            Queued(s.outgoing, p, m) + e.addressed
            == Queued(Step(s, c).0.outgoing, p, m) + e.emitted + e.late + e.dropped
  {
    hide IsObsolete, Le, FirstEpoch, Flush, Emitted, RemoveIfOld, Receive;
    assert QueueOk(s, p);
    SortedAsReceived(m, epoch, s.maxFuture);
    var s1 := Noted(s, sender, epoch);
    var (s2, removed) := RemoveIfOld(s1, sender);
    NotedRemoval(s, sender, epoch);
    if !removed && sender in s.outgoing && p == sender {
      var queue := s.outgoing[p];
      FlushCounts(p, queue, KeysUpTo(queue, epoch), epoch, p, m);
    }
  }

  /** An announcement removes its sender with its queue, or leaves all queues for now. */
  lemma NotedRemoval(s: State, sender: nat, epoch: Epoch)
    requires sender != s.ourId
    ensures var (s2, removed) := RemoveIfOld(Noted(s, sender, epoch), sender);
            && s2.ourId == s.ourId
            && (removed ==> s2.outgoing == s.outgoing - {sender} && sender !in s2.peerEpochs)
            && (!removed ==> s2 == Noted(s, sender, epoch))
  {
  }

  // ----- The invariant -----

  lemma ApplyOk(s: State, r: AlgoResult)
    requires QueueInv(s)
    ensures QueueInv(Apply(s, r).0)
  {
    hide HandleBatches, Announcement, Defer, PushAll;
    var s2 := AfterOutput(s, r);
    forall p ensures QueueOk(s2, p) {
      assert QueueOk(s, p);
      AfterOutputKeeps(s, r, p);
    }
    if r.step.Some? {
      DeferOnlyPremature(s2, Messages(r));
      PushAllOk(s2, Defer(s2, Messages(r)).deferred);
    }
  }

  lemma AnnouncementOk(s: State, sender: nat, epoch: Epoch)
    requires QueueInv(s) && sender != s.ourId
    ensures QueueInv(HandleEpochStarted(s, sender, epoch).0)
  {
    hide Flush;
    var s1 := Noted(s, sender, epoch);
    var (s2, removed) := RemoveIfOld(s1, sender);
    var s3 := HandleEpochStarted(s, sender, epoch).0;
    forall p ensures QueueOk(s3, p) {
      assert QueueOk(s, p);
      assert p != sender ==> (p in s1.outgoing <==> p in s3.outgoing);
      if p == sender && p in s3.outgoing {
        SenderQueueStaysOk(s, sender, epoch);
      }
    }
  }

  lemma SenderQueueStaysOk(s: State, sender: nat, epoch: Epoch)
    requires QueueOk(s, sender) && sender != s.ourId
    ensures QueueOk(HandleEpochStarted(s, sender, epoch).0, sender)
  {
    hide Flush, FirstEpoch, RemoveIfOld;
    NotedRemoval(s, sender, epoch);
    var s1 := Noted(s, sender, epoch);
    var (s2, removed) := RemoveIfOld(s1, sender);
    if !removed && sender in s.outgoing {
      var queue := s.outgoing[sender];
      var rest := queue - KeysUpTo(queue, epoch);
      assert forall k :: k in rest ==> k in queue && rest[k] == queue[k];
      assert forall k :: k in rest ==> !Le(k, epoch) && Lt(s.peerEpochs[sender], k);
    }
  }

  function Run(s: State, calls: seq<Call>): State {
    if calls == [] then s else Step(Run(s, calls[..|calls| - 1]), calls[|calls| - 1]).0
  }

  function Books(s: State, calls: seq<Call>, p: nat, m: Message): Ledger {
    if calls == [] then Ledger(0, 0, 0, 0)
    else
      var last := |calls| - 1;
      var l, e := Books(s, calls[..last], p, m), Entries(Run(s, calls[..last]), calls[last], p, m);
      Ledger(l.addressed + e.addressed, l.emitted + e.emitted, l.late + e.late, l.dropped + e.dropped)
  }

  /** Nobody receives messages from itself. */
  predicate FromOthers(s: State, c: Call) {
    c.Announced? ==> c.sender != s.ourId
  }

  lemma StepOk(s: State, c: Call)
    requires QueueInv(s) && FromOthers(s, c)
    ensures QueueInv(Step(s, c).0) && Step(s, c).0.ourId == s.ourId
  {
    hide Apply, HandleEpochStarted, QueueInv;
    if !s.isRemoved {
      match c {
        case AlgoCall(r) => ApplyOk(s, r);
        case Announced(sender, epoch) => AnnouncementOk(s, sender, epoch);
      }
    }
    StepKeepsId(s, c);
  }

  lemma StepKeepsId(s: State, c: Call)
    requires QueueInv(s)
    ensures Step(s, c).0.ourId == s.ourId
  {
    hide HandleBatches, Flush, Announcement, Defer, PushAll;
    if c.AlgoCall? {
      AfterOutputKeeps(s, c.result, 0);
    }
  }

  lemma StepBalances(s: State, c: Call, p: nat, m: Message)
    requires QueueInv(s) && FromOthers(s, c)
    ensures var e := Entries(s, c, p, m);
            Queued(s.outgoing, p, m) + e.addressed
            == Queued(Step(s, c).0.outgoing, p, m) + e.emitted + e.late + e.dropped
  {
    if !s.isRemoved {
      hide Step, Entries, Queued, QueueInv;
      match c {
        case AlgoCall(r) => ApplyBalances(s, r, p, m);
        case Announced(sender, epoch) => AnnouncedBalances(s, sender, epoch, p, m);
      }
    }
  }

  /** In every run that starts with empty queues: each message for each tracked peer is in
      exactly one place, and what is queued is later than the peer's epoch. */
  lemma {:induction false} Conservation(s: State, calls: seq<Call>, p: nat, m: Message)
    requires s.outgoing == map[]
    requires forall i :: 0 <= i < |calls| ==> FromOthers(s, calls[i])
    ensures QueueInv(Run(s, calls)) && Run(s, calls).ourId == s.ourId
    ensures var books := Books(s, calls, p, m);
            books.addressed
            == books.emitted + Queued(Run(s, calls).outgoing, p, m) + books.late + books.dropped
  {
    if calls != [] {
      hide Step, Entries, Queued, QueueInv;
      var last := |calls| - 1;
      Conservation(s, calls[..last], p, m);
      StepOk(Run(s, calls[..last]), calls[last]);
      StepBalances(Run(s, calls[..last]), calls[last], p, m);
    }
  }

  // ----- Why messages are passed on, and why they are dropped -----

  lemma {:induction false} SentIsEmitted(sends: Sends, t: Target, p: nat, m: Message)
    requires (t, Algo(m)) in sends && ToPeer(t, p)
    ensures Emitted(sends, p, m) > 0
    decreases |sends|
  {
    if sends[0] != (t, Algo(m)) {
      SentIsEmitted(sends[1..], t, p, m);
    }
  }

  lemma DueIsAccepted(m: Message, epoch: Epoch, maxFuture: nat)
    requires Le(FirstEpoch(m), epoch) && !IsObsolete(m, epoch)
    ensures IsAccepted(m, epoch, maxFuture)
  {
  }

  /** Whatever is passed on to a tracked peer, it can handle in the epoch that it has
      announced: not too early, and not too late. */
  lemma EmittedIsAccepted(s: State, c: Call, t: Target, p: nat, m: Message)
    requires QueueInv(s) && FromOthers(s, c)
    requires var (s', sends) := Step(s, c);
             (t, Algo(m)) in sends && ToPeer(t, p) && p in s'.peerEpochs
    ensures Receive(m, Step(s, c).0.peerEpochs[p], s.maxFuture) == Welcome
  {
    var (s', sends) := Step(s, c);
    SentIsEmitted(sends, t, p, m);
    SortedAsReceived(m, s'.peerEpochs[p], s.maxFuture);
    match c {
      case AlgoCall(r) =>
        hide Defer, HandleBatches, Announcement, PushAll, IsAccepted, Emitted, Receive;
        AfterOutputKeeps(s, r, p);
        AppliedIsAccepted(s, r, p, m);
      case Announced(sender, epoch) =>
        hide Flush, IsAccepted, Emitted, RemoveIfOld, IsObsolete, Receive;
        EmptyCounts(p, m);
        NotedRemoval(s, sender, epoch);
        FlushedIsAccepted(s, sender, epoch, p, m);
    }
  }

  lemma AppliedIsAccepted(s: State, r: AlgoResult, p: nat, m: Message)
    requires Emitted(Apply(s, r).1, p, m) > 0 && p in AfterOutput(s, r).peerEpochs
    ensures IsAccepted(m, AfterOutput(s, r).peerEpochs[p], AfterOutput(s, r).maxFuture)
  {
    hide Defer, HandleBatches, Announcement, PushAll, IsAccepted, Emitted, Addressed;
    if r.step.None? {
      EmptyCounts(p, m);
    } else {
      var s2 := AfterOutput(s, r);
      var announcement := Announcement(s.(algoEpoch := r.epoch), r.step.value.output);
      AnnouncementEmitsNothing(s.(algoEpoch := r.epoch), r.step.value.output, p, m);
      EmittedJoin(announcement, Defer(s2, Messages(r)).passed, p, m);
      DeferBalances(s2, Messages(r), p, m);
    }
  }

  lemma FlushedIsAccepted(s: State, sender: nat, epoch: Epoch, p: nat, m: Message)
    requires QueueInv(s) && sender != s.ourId && Emitted(HandleEpochStarted(s, sender, epoch).1, p, m) > 0
    requires p in HandleEpochStarted(s, sender, epoch).0.peerEpochs
    ensures IsAccepted(m, HandleEpochStarted(s, sender, epoch).0.peerEpochs[p], s.maxFuture)
  {
    hide Flush, IsAccepted, Emitted, RemoveIfOld, IsObsolete, FirstEpoch, CountIn;
    EmptyCounts(p, m);
    NotedRemoval(s, sender, epoch);
    assert QueueOk(s, sender);
    var queue := s.outgoing[sender];
    FlushCounts(sender, queue, KeysUpTo(queue, epoch), epoch, p, m);
    DueIsAccepted(m, epoch, s.maxFuture);
  }

  /** What a call of the algorithm does with a message, for each peer that is tracked after it: it
      is passed on exactly if the peer would handle it in its recorded epoch, and queued exactly if
      it would come too early. It is thrown away exactly if the peer would discard it. */
  lemma SentAsReceived(s: State, r: AlgoResult, p: nat, m: Message)
    requires QueueInv(s) && !s.isRemoved && p in Step(s, AlgoCall(r)).0.peerEpochs
    ensures var (t, sends) := Step(s, AlgoCall(r));
            var sent, before := Addressed(Messages(r), p, m), Queued(AfterOutput(s, r).outgoing, p, m);
            match Receive(m, t.peerEpochs[p], s.maxFuture)
            case Welcome => Emitted(sends, p, m) == sent && Queued(t.outgoing, p, m) == before
            case TooEarly(_) => Emitted(sends, p, m) == 0 && Queued(t.outgoing, p, m) == before + sent
            case TooLate => Emitted(sends, p, m) == 0 && Queued(t.outgoing, p, m) == before
  {
    hide HandleBatches, Announcement, Defer, PushAll, Addressed, Emitted, IsPremature, IsObsolete, Receive, Queued;
    var s1, s2 := s.(algoEpoch := r.epoch), AfterOutput(s, r);
    assert QueueOk(s, p);
    AfterOutputKeeps(s, r, p);
    if r.step.Some? {
      var d := Defer(s2, Messages(r));
      AnnouncementEmitsNothing(s1, r.step.value.output, p, m);
      EmittedJoin(Announcement(s1, r.step.value.output), d.passed, p, m);
      PushAllCounts(s2.outgoing, d.deferred, p, m);
      DeferBalances(s2, Messages(r), p, m);
      SortedAsReceived(m, s2.peerEpochs[p], s2.maxFuture);
    } else {
      EmptyCounts(p, m);
    }
  }

  /** What an announcement does with the messages queued for a peer that stays: exactly those for
      epochs up to the announced one leave the queue, and they are sent, except if the peer would
      discard them. */
  lemma FlushedAsReceived(s: State, p: nat, epoch: Epoch, m: Message)
    requires QueueInv(s) && !s.isRemoved && p != s.ourId && p in Step(s, Announced(p, epoch)).0.peerEpochs
    ensures var (t, sends) := Step(s, Announced(p, epoch));
            var before := Queued(s.outgoing, p, m);
            if Lt(epoch, FirstEpoch(m)) then
              Emitted(sends, p, m) == 0 && Queued(t.outgoing, p, m) == before
            else
              && Queued(t.outgoing, p, m) == 0
              && Emitted(sends, p, m) == if Receive(m, epoch, s.maxFuture).TooLate? then 0 else before
  {
    hide IsObsolete, FirstEpoch, Flush, Emitted, RemoveIfOld, Receive, Lt;
    EmptyCounts(p, m);
    assert QueueOk(s, p);
    NotedRemoval(s, p, epoch);
    SortedAsReceived(m, epoch, s.maxFuture);
    if p in s.outgoing {
      var queue := s.outgoing[p];
      FlushCounts(p, queue, KeysUpTo(queue, epoch), epoch, p, m);
    }
  }

  ghost predicate OnlyAlgo(sends: Sends) {
    forall tm :: tm in sends ==> tm.1.Algo?
  }

  lemma {:induction false} SplitIsAlgo(s: State, ids: seq<nat>, m: Message)
    requires forall id :: id in ids ==> id in s.peerEpochs
    ensures OnlyAlgo(Split(s, ids, m).passed)
    decreases |ids|
  {
    if ids != [] {
      SplitIsAlgo(s, ids[1..], m);
    }
  }

  lemma {:induction false} DeferIsAlgo(s: State, messages: seq<(Target, Message)>)
    ensures OnlyAlgo(Defer(s, messages).passed)
    decreases |messages|
  {
    if messages != [] {
      hide Split, AllAccept, Ascending;
      SplitIsAlgo(s, Ascending(s.peerEpochs.Keys), messages[0].1);
      DeferIsAlgo(s, messages[1..]);
    }
  }

  lemma {:induction false} SendAllIsAlgo(id: nat, messages: seq<Message>, epoch: Epoch)
    ensures OnlyAlgo(SendAll(id, messages, epoch))
    decreases |messages|
  {
    if messages != [] {
      SendAllIsAlgo(id, messages[1..], epoch);
    }
  }

  lemma {:induction false} FlushIsAlgo(id: nat, queue: Queue, keys: set<Epoch>, epoch: Epoch)
    requires keys <= queue.Keys
    ensures OnlyAlgo(Flush(id, queue, keys, epoch))
  {
    if keys != {} {
      hide SendAll, Earliest;
      SendAllIsAlgo(id, queue[Earliest(keys)], epoch);
      FlushIsAlgo(id, queue, keys - {Earliest(keys)}, epoch);
    }
  }

  // ----- Announcements -----

  lemma {:induction false} RemovalIsSeen(s: State, bs: seq<Batch>)
    requires QueueOk(s, 0)
    ensures AnyRemovesUs(s, bs) <==> DropEpochs(s.participants, bs, s.ourId) != {}
    decreases |bs|
  {
    if bs != [] {
      hide HandleBatch, QueueOk, KeepsOrRemoves;
      HandleBatchKeeps(s, bs[0], 0);
      var lasts := if Drops(s.participants, bs[0], 0) then {bs[0].epoch} else {};
      KeepsQueueOk(s, HandleBatch(s, bs[0]), 0, lasts);
      KeepsNumbers(s, HandleBatch(s, bs[0]), 0, lasts);
      RemovalIsSeen(HandleBatch(s, bs[0]), bs[1..]);
    }
  }

  lemma KeepsNumbers(s: State, s': State, p: nat, lasts: set<Epoch>)
    requires KeepsOrRemoves(s, s', p, lasts)
    ensures s'.ourId == s.ourId && s'.maxFuture == s.maxFuture && s'.algoEpoch == s.algoEpoch
  {
  }

  /** Exactly when the epoch of the algorithm is announced, to all: whenever it has returned a batch,
      as long as we are not removed, and a last time with the batch that drops us. Nothing else is
      ever announced. */
  lemma EpochIsAnnounced(s: State, r: AlgoResult, t: Target, e: Epoch)
    requires QueueInv(s) && !s.isRemoved
    ensures (t, EpochStarted(e)) in Step(s, AlgoCall(r)).1 <==>
              && t == All && e == r.epoch && Output(r) != []
              && (!Step(s, AlgoCall(r)).0.isRemoved || DropEpochs(s.participants, Output(r), s.ourId) != {})
  {
    hide HandleBatches, Defer, PushAll, AnyRemovesUs, DropEpochs, QueueOk;
    var s1 := s.(algoEpoch := r.epoch);
    assert QueueOk(s, 0);
    AfterOutputKeeps(s, r, 0);
    KeepsNumbers(s1, AfterOutput(s, r), 0, DropEpochs(s.participants, Output(r), 0));
    if r.step.Some? {
      EpochDoesNotMatter(s, r.epoch);
      RemovalIsSeen(s1, r.step.value.output);
      DeferIsAlgo(AfterOutput(s, r), Messages(r));
    }
  }

  lemma EpochDoesNotMatter(s: State, epoch: Epoch)
    requires QueueOk(s, 0)
    ensures QueueOk(s.(algoEpoch := epoch), 0)
  {
  }

  // ----- What is known about us and about peers -----

  lemma {:induction false} RemoveAllSelf(s: State, ids: seq<nat>, last: Epoch)
    ensures var t := RemoveAll(s, ids, last);
            && t.ourId == s.ourId && t.algoEpoch == s.algoEpoch
            && (t.isRemoved <==> s.isRemoved || (s.ourId in ids && Lt(last, s.algoEpoch)))
    decreases |ids|
  {
    if ids != [] {
      hide Lt;
      RemoveAllSelf(RemoveAfter(s, ids[0], last), ids[1..], last);
    }
  }

  lemma {:induction false} AddCandidatesSelf(s: State, ids: seq<nat>, at: Epoch)
    ensures var t := AddCandidates(s, ids, at);
            t.ourId == s.ourId && t.algoEpoch == s.algoEpoch && t.isRemoved == s.isRemoved
            && t.participants == s.participants
    decreases |ids|
  {
    if ids != [] {
      hide Lt;
      AddCandidatesSelf(AddCandidate(s, ids[0], at), ids[1..], at);
    }
  }

  lemma HandleBatchSelf(s: State, b: Batch)
    ensures var t := HandleBatch(s, b);
            && t.ourId == s.ourId && t.algoEpoch == s.algoEpoch
            && t.participants == ParticipantsAfter(s.participants, b)
            && (t.isRemoved <==> s.isRemoved || (Drops(s.participants, b, s.ourId) && Lt(b.epoch, s.algoEpoch)))
  {
    if b.participants.Some? {
      var next := b.participants.value;
      var s1 := AddCandidates(s, Ascending(next), b.epoch);
      hide Ascending, AddCandidates, RemoveAll, Lt;
      AddCandidatesSelf(s, Ascending(next), b.epoch);
      RemoveAllSelf(s1, Ascending(s1.participants - next), b.epoch);
    }
  }

  lemma {:induction false} HandleBatchesSelf(s: State, bs: seq<Batch>)
    ensures var t := HandleBatches(s, bs);
            && t.ourId == s.ourId && t.algoEpoch == s.algoEpoch
            && (t.isRemoved <==>
                  s.isRemoved || exists l :: l in DropEpochs(s.participants, bs, s.ourId) && Lt(l, s.algoEpoch))
    decreases |bs|
  {
    if bs != [] {
      hide HandleBatch, Lt, Drops;
      HandleBatchSelf(s, bs[0]);
      HandleBatchesSelf(HandleBatch(s, bs[0]), bs[1..]);
      var rest := DropEpochs(ParticipantsAfter(s.participants, bs[0]), bs[1..], s.ourId);
      var all := DropEpochs(s.participants, bs, s.ourId);
      assert all == rest + if Drops(s.participants, bs[0], s.ourId) then {bs[0].epoch} else {};
      assert forall l :: l in all <==> l in rest || (Drops(s.participants, bs[0], s.ourId) && l == bs[0].epoch);
    }
  }

  /** We are removed exactly when a batch drops us and our algorithm has left its epoch behind. From
      then on, nothing changes and nothing is sent. */
  lemma RemovedIff(s: State, c: Call)
    requires QueueInv(s) && FromOthers(s, c)
    ensures if s.isRemoved then Step(s, c) == (s, [])
            else Step(s, c).0.isRemoved <==>
                   c.AlgoCall? && exists l ::
                     l in DropEpochs(s.participants, Output(c.result), s.ourId) && Lt(l, c.result.epoch)
  {
    match c {
      case AlgoCall(r) =>
        hide HandleBatches, Defer, PushAll, Announcement, DropEpochs, Lt;
        if r.step.Some? {
          HandleBatchesSelf(s.(algoEpoch := r.epoch), r.step.value.output);
        } else {
          NoDrops(s.participants, s.ourId);
        }
      case Announced(sender, epoch) =>
        hide Flush, Lt;
    }
  }

  lemma NoDrops(participants: set<nat>, p: nat)
    ensures DropEpochs(participants, [], p) == {}
  {
  }

  /** A peer that stays when it announces an epoch is recorded with the latest that it has announced:
      nobody goes back. */
  lemma LatestIsRecorded(s: State, p: nat, epoch: Epoch)
    requires !s.isRemoved && p != s.ourId && p in Step(s, Announced(p, epoch)).0.peerEpochs
    ensures var after := Step(s, Announced(p, epoch)).0.peerEpochs[p];
            && Le(epoch, after) && (p in s.peerEpochs ==> Le(s.peerEpochs[p], after))
            && (after == epoch || (p in s.peerEpochs && after == s.peerEpochs[p]))
  {
    hide Flush;
  }

  /** Our own epoch is that of the algorithm, also when it has failed. */
  lemma OwnEpochIsRecorded(s: State, r: AlgoResult, p: nat, epoch: Epoch)
    requires QueueInv(s)
    ensures Step(s, AlgoCall(r)).0.algoEpoch == (if s.isRemoved then s.algoEpoch else r.epoch)
    ensures Step(s, Announced(p, epoch)).0.algoEpoch == s.algoEpoch
  {
    hide Defer, HandleBatches, Announcement, PushAll, Flush;
    assert QueueOk(s, 0);
    AfterOutputKeeps(s, r, 0);
  }

  /** Messages that are dropped with their recipient are dropped because it has left its last
      epoch behind, and so have we. That is the epoch it is scheduled for when it announces a
      later one, or otherwise the epoch of a batch that has just dropped it. If they are
      messages of Honey Badger, they are for epochs after that, or late for the peer. */
  lemma DropReason(s: State, c: Call, p: nat, m: Message) returns (last: Epoch)
    requires QueueInv(s) && FromOthers(s, c) && Entries(s, c, p, m).dropped > 0
    ensures p in s.peerEpochs && Lt(s.peerEpochs[p], FirstEpoch(m))
    ensures c.AlgoCall? ==>
              && last in DropEpochs(s.participants, Output(c.result), p)
              && Lt(last, c.result.epoch) && Lt(last, s.peerEpochs[p])
    ensures c.Announced? ==>
              && p == c.sender && p in s.lastEpochs && last == s.lastEpochs[p]
              && Lt(last, s.algoEpoch) && (Lt(last, c.epoch) || Lt(last, s.peerEpochs[p]))
    ensures m.HoneyBadger? ==> Lt(last, FirstEpoch(m)) || (c.Announced? && Receive(m, c.epoch, s.maxFuture).TooLate?)
  {
    assert QueueOk(s, p);
    match c {
      case AlgoCall(r) =>
        hide HandleBatches, Addressed, Emitted, Step;
        AfterOutputKeeps(s, r, p);
        last :| last in DropEpochs(s.participants, Output(r), p) && IsPast(s.(algoEpoch := r.epoch), p, last);
        assert FirstEpoch(m) in s.outgoing[p];
      case Announced(sender, epoch) =>
        hide Flush, Emitted;
        last := s.lastEpochs[sender];
        assert FirstEpoch(m) in s.outgoing[p];
    }
  }
}
