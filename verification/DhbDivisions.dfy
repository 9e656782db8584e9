/** One sequence of batches, handled in different calls: how many batches the inner Honey Badger
    returns at once depends on when messages arrive, and so differs between nodes. */
module DhbDivisions {
  import opened Options
  import opened DhbSpec
  import opened DhbReplication
  import opened DhbFailures
  import Skg = SyncKeyGenSpec

  type Calls = seq<seq<HbBatch>>

  /** All batches that these calls handle. */
  function Flatten(calls: Calls): seq<HbBatch> {
    if calls == [] then [] else calls[0] + Flatten(calls[1..])
  }

  ghost predicate IsDivision(calls: Calls, bs: seq<HbBatch>) {
    Flatten(calls) == bs
  }

  // ----- Without failures -----

  lemma {:induction false} FirstIsFine(s: State, bs: seq<HbBatch>, cs: seq<HbBatch>)
    requires ProcessOutput(s, bs + cs).error.None?
    ensures ProcessOutput(s, bs).error.None? && ProcessOutput(ProcessOutput(s, bs).state, cs).error.None?
    decreases |bs|
  {
    if bs == [] {
      assert bs + cs == cs;
    } else {
      hide ProcessBatch;
      assert (bs + cs)[1..] == bs[1..] + cs;
      FirstIsFine(ProcessBatch(s, bs[0]).state, bs[1..], cs);
    }
  }

  /** If no batch fails, every division gives what a single call gives. */
  lemma {:induction false} FineDivision(s: State, calls: Calls)
    requires ProcessOutput(s, Flatten(calls)).error.None?
    ensures Run(s, calls) == (ProcessOutput(s, Flatten(calls)).state, ProcessOutput(s, Flatten(calls)).batches)
    decreases |calls|
  {
    if calls != [] {
      hide ProcessOutput;
      var first, rest := calls[0], Flatten(calls[1..]);
      FirstIsFine(s, first, rest);
      CallContinues(s, first, rest);
      FineDivision(ProcessOutput(s, first).state, calls[1..]);
    } else {
      assert ProcessOutput(s, []) == Outcome(s, [], None);
    }
  }

  /** Nodes that start from the same public state and handle the same batches, each divided into
      calls in its own way, stay equal in public and output the same, if no batch fails. */
  lemma DivisionsAgree(a: State, b: State, calls: Calls, calls': Calls)
    requires SameState(a, b) && Flatten(calls) == Flatten(calls')
    requires ProcessOutput(a, Flatten(calls)).error.None?
    ensures var (s, bs) := Run(a, calls);
            var (t, cs) := Run(b, calls');
            SameState(s, t) && PairwiseEq(bs, cs) && |bs| == |Flatten(calls)|
  {
    hide ProcessOutput, SameState, PairwiseEq;
    OutputSame(a, b, Flatten(calls));
    FineDivision(a, calls);
    FineDivision(b, calls');
    FailedIsEmpty(a, Flatten(calls));
  }

  // ----- With failures -----

  /** There is a division in which something comes out: the first batch does not fail; or it
      does, and after it, and after any number of further batches that are lost in the same
      call, something comes out of the rest. */
  ghost predicate CanComeOut(s: State, bs: seq<HbBatch>)
    decreases |bs|
  {
    && bs != []
    && match ProcessBatch(s, bs[0])
       case Output(_, _) => true
       case Failed(t, e) => e != Panic && exists m :: 1 <= m < |bs| && CanComeOut(t, bs[m..])
  }

  lemma FailsAtOnce(s: State, bs: seq<HbBatch>)
    requires bs != [] && ProcessBatch(s, bs[0]).Failed?
    ensures ProcessOutput(s, bs) == Outcome(ProcessBatch(s, bs[0]).state, [], Some(ProcessBatch(s, bs[0]).error))
  {
    hide ProcessBatch;
  }

  lemma {:induction false} SomethingComesOut(s: State, bs: seq<HbBatch>) returns (calls: Calls)
    requires CanComeOut(s, bs)
    ensures IsDivision(calls, bs) && Run(s, calls).1 != []
    decreases |bs|
  {
    hide ProcessBatch, ProcessOutput;
    match ProcessBatch(s, bs[0]) {
      case Output(t, out) =>
        calls := [[bs[0]], bs[1..]];
        assert calls[1..] == [bs[1..]] && calls[1..][1..] == [];
        assert Flatten([bs[1..]]) == bs[1..] + [] == bs[1..];
        OneBatch(s, bs[0]);
      case Failed(t, e) =>
        var m :| 1 <= m < |bs| && CanComeOut(t, bs[m..]);
        var rest := SomethingComesOut(t, bs[m..]);
        calls := [bs[..m]] + rest;
        assert calls[1..] == rest;
        FailsAtOnce(s, bs[..m]);
    }
  }

  lemma {:induction false} NothingComesOut(s: State, calls: Calls)
    requires !CanComeOut(s, Flatten(calls))
    ensures Run(s, calls).1 == []
    decreases |calls|
  {
    hide ProcessBatch, ProcessOutput;
    if calls != [] {
      var first, rest := calls[0], Flatten(calls[1..]);
      if first == [] {
        assert first + rest == rest;
        assert ProcessOutput(s, []) == Outcome(s, [], None) by {
          NoBatch(s);
        }
        NothingComesOut(s, calls[1..]);
      } else {
        var t := ProcessBatch(s, first[0]).state;
        FailsAtOnce(s, first);
        if ProcessBatch(s, first[0]).error != Panic {
          assert (first + rest)[|first|..] == rest;
          assert !CanComeOut(t, rest) by {
            if rest != [] {
              assert 1 <= |first| < |first + rest|;
            }
          }
          NothingComesOut(t, calls[1..]);
        }
      }
    }
  }

  lemma NoBatch(s: State)
    ensures ProcessOutput(s, []) == Outcome(s, [], None)
  {
  }

  /** Two nodes can output different batches, as they divide the same batches differently. */
  ghost predicate CanDiffer(a: State, b: State, bs: seq<HbBatch>) {
    exists calls: Calls, calls': Calls ::
      IsDivision(calls, bs) && IsDivision(calls', bs) && !PairwiseEq(Run(a, calls).1, Run(b, calls').1)
  }

  lemma NothingTwice(x: seq<Batch>, y: seq<Batch>)
    requires PairwiseEq(x, y)
    ensures x == [] <==> y == []
  {
  }

  /** Exactly when the division into calls matters: some batch is bad, in the state that the
      batches before it lead to, and yet something can come out. */
  lemma DivisionMattersIff(a: State, b: State, bs: seq<HbBatch>)
    requires SameState(a, b)
    ensures CanDiffer(a, b, bs) <==> (exists k: nat :: BreaksAt(a, bs, k)) && CanComeOut(a, bs)
  {
    hide ProcessOutput, SameState, PairwiseEq, BreaksAt, CanComeOut, Run;
    CallIsLostIff(a, bs);
    if calls: Calls, calls': Calls :|
      IsDivision(calls, bs) && IsDivision(calls', bs) && !PairwiseEq(Run(a, calls).1, Run(b, calls').1) {
      if ProcessOutput(a, bs).error.None? {
        DivisionsAgree(a, b, calls, calls');
      }
      if !CanComeOut(a, bs) {
        NothingComesOut(a, calls);
        NothingComesOut(a, calls');
        ReplicatedDeterminism(a, b, calls');
      }
    }
    if ProcessOutput(a, bs).error.Some? && CanComeOut(a, bs) {
      var calls' := SomethingComesOut(a, bs);
      ReplicatedDeterminism(a, b, calls');
      NothingTwice(Run(a, calls').1, Run(b, calls').1);
      SingleCall(a, bs);
      if PairwiseEq(Run(a, [bs]).1, Run(b, calls').1) {
        NothingTwice(Run(a, [bs]).1, Run(b, calls').1);
        assert false;
      }
      assert IsDivision([bs], bs);
      assert CanDiffer(a, b, bs);
    }
  }

  lemma SingleCall(s: State, bs: seq<HbBatch>)
    requires ProcessOutput(s, bs).error.Some?
    ensures IsDivision([bs], bs) && Run(s, [bs]).1 == []
  {
    hide ProcessOutput;
    FailedIsEmpty(s, bs);
    assert [bs][1..] == [];
    assert Flatten([bs]) == bs + [] == bs;
  }

  /** If the first batch is good, this is so exactly if any other is bad. */
  lemma GoodStart(a: State, b: State, bs: seq<HbBatch>)
    requires SameState(a, b) && bs != [] && !IsBad(a, bs[0])
    ensures CanDiffer(a, b, bs) <==> exists k: nat :: BreaksAt(a, bs, k)
  {
    hide ProcessBatch, IsBad, BreaksAt, CanDiffer, SameState;
    BadIff(a, bs[0]);
    DivisionMattersIff(a, b, bs);
  }

  /** Two nodes that are equal in public, and handle a good batch and a bad one: one of them at
      once, and the other one by one. Whatever the order, only the other outputs the good one. */
  lemma NodesDiffer(a: State, b: State, part: Skg.Part)
    requires SameState(a, b) && IsRemoving(a)
    ensures Run(a, [[QuietBatch(0), LostBatch(1, part)]]).1 == []
    ensures |Run(b, [[QuietBatch(0)], [LostBatch(1, part)]]).1| == 1
    ensures Run(a, [[LostBatch(0, part), QuietBatch(1)]]).1 == []
    ensures |Run(b, [[LostBatch(0, part)], [QuietBatch(1)]]).1| == 1
  {
    hide SameState, IsRemoving, Run, QuietBatch, LostBatch;
    WhenRemoving(a, part);
    ReplicatedDeterminism(a, b, [[QuietBatch(0)], [LostBatch(1, part)]]);
    ReplicatedDeterminism(a, b, [[LostBatch(0, part)], [QuietBatch(1)]]);
    hide PublicEq;
  }
}
