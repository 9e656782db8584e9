/** Whom a sender queue tracks after the set of participants has changed. */
module SenderQueueMembers {
  import opened Options
  import opened Orders
  import opened SenderQueueSpec

  /** A new participant is tracked, and not about to be removed because of an earlier change. */
  ghost predicate IsMember(s: State, id: nat, at: Epoch) {
    id in s.peerEpochs && (id in s.lastEpochs ==> Le(at, s.lastEpochs[id]))
  }

  /** An old participant is scheduled for removal after this epoch, or it is already gone. */
  ghost predicate IsLeaving(s: State, id: nat, at: Epoch) {
    if id in s.lastEpochs then s.lastEpochs[id] == at
    else id !in s.peerEpochs && id !in s.outgoing
  }

  /** Nobody else is touched. */
  ghost predicate SamePeer(s: State, t: State, id: nat) {
    && t.ourId == s.ourId && t.algoEpoch == s.algoEpoch
    && (id in t.peerEpochs <==> id in s.peerEpochs)
    && (id in t.peerEpochs ==> t.peerEpochs[id] == s.peerEpochs[id])
    && (id in t.lastEpochs <==> id in s.lastEpochs)
    && (id in t.lastEpochs ==> t.lastEpochs[id] == s.lastEpochs[id])
    && (id in t.outgoing <==> id in s.outgoing)
    && (id in t.outgoing ==> t.outgoing[id] == s.outgoing[id])
  }

  lemma {:induction false} AddCandidatesMembers(s: State, ids: seq<nat>, at: Epoch, id: nat)
    ensures var t := AddCandidates(s, ids, at);
            && t.ourId == s.ourId && t.algoEpoch == s.algoEpoch && t.participants == s.participants
            && (if id in ids && id != s.ourId then IsMember(t, id, at) else SamePeer(s, t, id))
            && (IsMember(s, id, at) ==> IsMember(t, id, at))
    decreases |ids|
  {
    if ids != [] {
      hide Lt;
      AddCandidatesMembers(AddCandidate(s, ids[0], at), ids[1..], at, id);
    }
  }

  lemma RemoveAfterMembers(s: State, gone: nat, at: Epoch, id: nat)
    ensures var t := RemoveAfter(s, gone, at);
            && t.ourId == s.ourId && t.algoEpoch == s.algoEpoch
            && (if id == gone then id == s.ourId || IsLeaving(t, id, at) else SamePeer(s, t, id))
  {
    hide Lt;
  }

  lemma {:induction false} RemoveAllMembers(s: State, ids: seq<nat>, at: Epoch, id: nat)
    ensures var t := RemoveAll(s, ids, at);
            && t.ourId == s.ourId && t.algoEpoch == s.algoEpoch
            && (if id in ids then id == s.ourId || IsLeaving(t, id, at) else SamePeer(s, t, id))
    decreases |ids|
  {
    if ids != [] {
      hide RemoveAfter, IsLeaving;
      var s1 := RemoveAfter(s, ids[0], at);
      RemoveAfterMembers(s, ids[0], at, id);
      RemoveAllMembers(s1, ids[1..], at, id);
      if id == ids[0] && id !in ids[1..] && id != s.ourId {
        SameLeaving(s1, RemoveAll(s1, ids[1..], at), id, at);
      }
    }
  }

  lemma SameLeaving(s: State, t: State, id: nat, at: Epoch)
    requires SamePeer(s, t, id) && IsLeaving(s, id, at)
    ensures IsLeaving(t, id, at)
  {
  }

  /** After a change, every new participant but us is tracked and stays, every old one but us
      is leaving or gone, and for everybody else nothing has changed. */
  lemma ParticipantsChanged(s: State, next: set<nat>, at: Epoch, id: nat)
    requires id != s.ourId
    ensures var t := ChangeParticipants(s, next, at);
            && t.participants == next
            && (id in next ==> IsMember(t, id, at))
            && (id !in next && id in s.participants ==> IsLeaving(t, id, at))
            && (id !in next && id !in s.participants ==> SamePeer(s, t, id))
  {
    hide Ascending, AddCandidates, RemoveAll, Lt;
    var s1 := AddCandidates(s, Ascending(next), at);
    AddCandidatesMembers(s, Ascending(next), at, id);
    RemoveAllMembers(s1, Ascending(s1.participants - next), at, id);
  }

  /** A participant that has left its last epoch behind is removed with its queue as soon as
      it says so, if we have left that epoch behind, too. */
  lemma LeavesWhenDone(s: State, id: nat, epoch: Epoch)
    requires id != s.ourId && id in s.lastEpochs
    requires Lt(s.lastEpochs[id], s.algoEpoch) && Lt(s.lastEpochs[id], epoch)
    ensures var (t, sends) := HandleEpochStarted(s, id, epoch);
            && id !in t.peerEpochs && id !in t.outgoing && id !in t.lastEpochs && sends == []
  {
  }

  /** Before that, it stays and is sent what is due. */
  lemma StaysUntilDone(s: State, id: nat, epoch: Epoch)
    requires id in s.lastEpochs && (Le(s.algoEpoch, s.lastEpochs[id]) || Le(epoch, s.lastEpochs[id]))
    requires id != s.ourId && (id in s.peerEpochs ==> Le(s.peerEpochs[id], s.lastEpochs[id]))
    ensures var (t, sends) := HandleEpochStarted(s, id, epoch);
            id in t.peerEpochs && id in t.lastEpochs && (t, sends) == ProcessNewEpoch(Noted(s, id, epoch), id, epoch)
  {
    hide Flush;
  }
}
