/** Both ways of handling the subset end with the same batch. */
module EpochStateRuns {
  import opened Options
  import opened Merkle
  import opened SubsetSpec
  import opened EpochStateSpec

  /** Output of the subset protocol, or a share that somebody has sent. */
  datatype Event = FromSubset(output: Output) | Share(proposer: nat)

  function Handle(s: EpochData, e: Event): EpochData {
    match e
    case FromSubset(o) => ProcessOne(s, o)
    case Share(p) => HandleShare(s, p)
  }

  function Run(handler: Handler, events: seq<Event>): EpochData {
    if events == [] then EpochStateSpec.Initial(handler)
    else Handle(Run(handler, events[..|events| - 1]), events[|events| - 1])
  }

  /** The subset outputs nothing after `Done`. */
  ghost predicate DoneIsLast(events: seq<Event>) {
    forall i, j :: 0 <= i < j < |events| && events[i] == FromSubset(Done) ==> events[j].Share?
  }

  /** Without its buffer, a state that collects everything at the end, before the end. */
  ghost predicate Lags(a: EpochData, b: EpochData) {
    && a.handler == Incremental && b.handler.AllAtEnd?
    && a.complete == None && b.complete == None && b.accepted == {}
    && var flushed := Insert(b, b.handler.buffer);
       a.accepted == flushed.accepted && SameOn(a.decryption, flushed.decryption, a.accepted)
  }

  ghost predicate SameOn(d: map<nat, DecryptionState>, e: map<nat, DecryptionState>, ids: set<nat>) {
    forall id :: id in ids ==> id in d && id in e && d[id] == e[id]
  }

  /** After the end, the two know the same. */
  ghost predicate Same(a: EpochData, b: EpochData) {
    && a.complete.Some? && a.complete == b.complete
    && a.decryption.Keys == a.complete.value && a.decryption == b.decryption
  }

  lemma {:induction false} InsertMore(s: EpochData, cs: seq<(nat, Bytes)>, p: nat, v: Bytes)
    ensures var t := Insert(s, cs);
            Insert(s, cs + [(p, v)])
            == t.(decryption := t.decryption[p := Decrypted(v)], accepted := t.accepted + {p})
    decreases |cs|
  {
    if cs == [] {
      assert [(p, v)][1..] == [];
    } else {
      assert (cs + [(p, v)])[1..] == cs[1..] + [(p, v)];
      var (q, w) := cs[0];
      InsertMore(s.(decryption := s.decryption[q := Decrypted(w)], accepted := s.accepted + {q}), cs[1..], p, v);
    }
  }

  /** Of the old state, inserting uses only what it does not overwrite. */
  lemma {:induction false} InsertKeeps(s: EpochData, t: EpochData, cs: seq<(nat, Bytes)>)
    requires s.accepted == t.accepted && SameOn(s.decryption, t.decryption, s.accepted)
    ensures var s', t' := Insert(s, cs), Insert(t, cs);
            && s'.accepted == t'.accepted && SameOn(s'.decryption, t'.decryption, s'.accepted)
            && s'.complete == s.complete && s'.handler == s.handler
    decreases |cs|
  {
    if cs != [] {
      var (p, v) := cs[0];
      InsertKeeps(s.(decryption := s.decryption[p := Decrypted(v)], accepted := s.accepted + {p}),
                  t.(decryption := t.decryption[p := Decrypted(v)], accepted := t.accepted + {p}), cs[1..]);
    }
  }

  lemma ContributionLags(a: EpochData, b: EpochData, p: nat, v: Bytes)
    requires Lags(a, b)
    ensures Lags(ProcessOne(a, Contribution(p, v)), ProcessOne(b, Contribution(p, v)))
  {
    var a', b' := ProcessOne(a, Contribution(p, v)), ProcessOne(b, Contribution(p, v));
    var cs := b.handler.buffer;
    InsertMore(a, [], p, v);
    assert [] + [(p, v)] == [(p, v)] && a.(handler := Incremental) == a;
    assert a' == a.(decryption := a.decryption[p := Decrypted(v)], accepted := a.accepted + {p});
    assert b' == b.(handler := AllAtEnd(cs + [(p, v)]));
    InsertMore(b', cs, p, v);
    InsertKeeps(b, b', cs);
  }

  lemma ShareLags(a: EpochData, b: EpochData, p: nat)
    requires Lags(a, b)
    ensures Lags(HandleShare(a, p), HandleShare(b, p))
  {
    InsertKeeps(b, HandleShare(b, p), b.handler.buffer);
  }

  lemma DoneCatchesUp(a: EpochData, b: EpochData)
    requires Lags(a, b)
    ensures Same(ProcessOne(a, Done), ProcessOne(b, Done))
  {
    var cs := b.handler.buffer;
    InsertKeeps(b, b.(handler := AllAtEnd([])), cs);
    var a', b' := ProcessOne(a, Done), ProcessOne(b, Done);
    assert a' == Finish(a);
    assert b' == Finish(Insert(b.(handler := AllAtEnd([])), cs));
  }

  /** The relation between the two ways, before and after the end. */
  lemma {:induction false} RunsCorrespond(events: seq<Event>)
    requires DoneIsLast(events)
    ensures var a, b := Run(Incremental, events), Run(AllAtEnd([]), events);
            if FromSubset(Done) in events then Same(a, b) else Lags(a, b)
  {
    if events != [] {
      hide ProcessOne, Lags;
      var last := |events| - 1;
      var before, e := events[..last], events[last];
      RunsCorrespond(before);
      assert events == before + [e];
      var a, b := Run(Incremental, before), Run(AllAtEnd([]), before);
      if FromSubset(Done) in before {
        var i :| 0 <= i < last && before[i] == FromSubset(Done);
        assert events[i] == FromSubset(Done);
        assert e.Share?;
      } else {
        match e {
          case FromSubset(Contribution(p, v)) => ContributionLags(a, b, p, v);
          case FromSubset(Done) => DoneCatchesUp(a, b);
          case Share(p) => ShareLags(a, b, p);
        }
      }
    }
  }

  /** For every sequence of events in which nothing is output after `Done`: the accepted set
      and the batch do not depend on how the subset is handled. */
  lemma StrategiesAgree<C>(events: seq<Event>, deserialize: Bytes -> Option<C>)
    requires DoneIsLast(events)
    ensures var a, b := Run(Incremental, events), Run(AllAtEnd([]), events);
            a.complete == b.complete && TryOutputBatch(a, deserialize) == TryOutputBatch(b, deserialize)
  {
    RunsCorrespond(events);
  }

  /** A share makes an entry for its proposer, unless the subset has finished without it; a plaintext
      that is there stays. */
  lemma ShareIsNoted(s: EpochData, p: nat, q: nat)
    ensures var t := HandleShare(s, p);
            && t == s.(decryption := t.decryption)
            && (q in t.decryption <==>
                  q in s.decryption || (q == p && (s.complete.Some? ==> p in s.complete.value)))
            && (q in s.decryption ==> q in t.decryption && t.decryption[q] == s.decryption[q])
  {
  }
}
