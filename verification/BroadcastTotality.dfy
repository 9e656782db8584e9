/** When Reliable Broadcast is total: exactly if the leaves that a proposer commits to decode
    alike for all nodes that have enough of them. */
module BroadcastTotality {
  import opened Options
  import opened Quorums
  import opened Merkle
  import opened ErasureCoding
  import opened ShardSubsets
  import opened BroadcastSpec
  import opened BroadcastNode
  import opened BroadcastNetwork
  import opened BroadcastSafety
  import opened BroadcastSplit
  import SmallCode

  /** When all messages of correct validators are handled: if a correct node has output what
      these leaves stand for, all have. */
  ghost predicate IsTotal(sys: System, net: Network, leaves: seq<Bytes>)
    requires sys.n > 0 && |leaves| > 0
  {
    Quiescent(sys, net) ==>
      forall i, j, v :: i in net && j in net && v in net[i].history.outputs && StandsFor(sys, net, i, leaves, v) ==>
        net[j].history.outputs == [v]
  }

  ghost predicate StandsFor(sys: System, net: Network, i: nat, leaves: seq<Bytes>, v: Bytes)
    requires sys.n > 0 && |leaves| > 0 && i in net
  {
    OutputFrom(sys.Config(i), net[i].history, Root(sys.hash, Leaves(sys.hash, leaves)), leaves, v)
  }

  /** So it is in every run, whoever is faulty, and whatever the faulty nodes do. */
  ghost predicate AlwaysTotal(n: nat, coding: Coding, hash: Hash, leaves: seq<Bytes>)
    requires n > 0 && |leaves| > 0
  {
    forall sys: System, actions: seq<Action>, net: Network ::
      sys.Valid() && sys.n == n && sys.coding == coding && sys.hash == hash && Reaches(sys, actions, net) ==>
        IsTotal(sys, net, leaves)
  }

  lemma AlikeIsTotal(sys: System, actions: seq<Action>, net: Network, leaves: seq<Bytes>)
    requires sys.Valid() && Reaches(sys, actions, net) && |leaves| > 0 && DecodeAlike(sys.coding, sys.hash, leaves)
    ensures IsTotal(sys, net, leaves)
  {
    hide Reaches, Quiescent, DecodeAlike, OutputFrom, Lawful, CollisionFree;
    if Quiescent(sys, net) {
      forall i, j, v | i in net && j in net && v in net[i].history.outputs && StandsFor(sys, net, i, leaves, v)
        ensures net[j].history.outputs == [v]
      {
        Totality(sys, actions, net, i, j, Root(sys.hash, Leaves(sys.hash, leaves)), leaves, v);
      }
    }
  }

  // ----- Sets of leaves that decode differently -----

  lemma OneOfMore(a: set<nat>, b: set<nat>) returns (x: nat)
    requires a <= b && a != b
    ensures x in b - a
  {
    x :| x in b && x !in a;
  }

  /** On the way from leaves that do not decode to more leaves that do, one makes the difference. */
  lemma {:induction false} FindOne(c: Coding, h: Hash, leaves: seq<Bytes>, few: set<nat>, many: set<nat>)
    returns (some: set<nat>, x: nat)
    requires |leaves| > 0 && few <= many
    requires DecodeFrom(c, h, leaves, few).None? && DecodeFrom(c, h, leaves, many).Some?
    ensures few <= some && x in many - some && some + {x} <= many
    ensures DecodeFrom(c, h, leaves, some).None? && DecodeFrom(c, h, leaves, some + {x}).Some?
    decreases |many - few|
  {
    hide DecodeFrom;
    var y := OneOfMore(few, many);
    if DecodeFrom(c, h, leaves, few + {y}).Some? {
      some, x := few, y;
    } else {
      assert many - (few + {y}) < many - few;
      SmallerSet(many - (few + {y}), many - few);
      some, x := FindOne(c, h, leaves, few + {y}, many);
    }
  }

  lemma SmallerSet(a: set<nat>, b: set<nat>)
    requires a < b
    ensures |a| < |b|
  {
    var x := OneOfMore(a, b);
    SubsetSize(a, b - {x});
  }

  lemma {:induction false} Fill(base: set<nat>, pool: set<nat>, size: nat) returns (all: set<nat>)
    requires base !! pool && |base| <= size <= |base| + |pool|
    ensures base <= all <= base + pool && |all| == size
    decreases size - |base|
  {
    if |base| == size {
      all := base;
    } else {
      var x :| x in pool;
      all := Fill(base + {x}, pool - {x}, size);
    }
  }

  /** Some leaves that do not decode, and at most `f` more with which they do. */
  lemma FindSplit(n: nat, c: Coding, h: Hash, leaves: seq<Bytes>) returns (some: set<nat>, more: set<nat>)
    requires Lawful(c) && CollisionFree(h) && |leaves| == n > 0 && MaxFaulty(n) > 0 && c.ReedSolomon?
    requires c.dataShards == n - 2 * MaxFaulty(n) && !IsCodeword(c, leaves)
    requires DecodeFrom(c, h, leaves, Validators(n)).Some?
    ensures some <= Validators(n) && more <= Validators(n) - some
    ensures n - 2 * MaxFaulty(n) <= |some| <= n - MaxFaulty(n) && |more| <= MaxFaulty(n)
    ensures DecodeFrom(c, h, leaves, some).None? && DecodeFrom(c, h, leaves, some + more).Some?
  {
    hide Lawful, CollisionFree, DecodeFrom, IsCodeword;
    var f := MaxFaulty(n);
    var few, most, all := Validators(n - 2 * f), Validators(n - f), Validators(n);
    ValidatorsSize(n - 2 * f);
    ValidatorsSize(n - f);
    ValidatorsSize(n);
    assert few <= most <= all;
    if DecodeFrom(c, h, leaves, few).Some? {
      ExactlyEnough(c, h, leaves, few);
      assert false;
    }
    if DecodeFrom(c, h, leaves, most).Some? {
      var x;
      some, x := FindOne(c, h, leaves, few, most);
      more := {x};
      SubsetSize(few, some);
      SubsetSize(some + {x}, most);
    } else {
      some, more := most, all - most;
      assert some + more == all;
      assert |all| == |most| + |more|;
    }
  }

  // ----- The exact condition -----

  /** If leaves do not decode alike, some run is not total. */
  lemma NotAlikeNotTotal(n: nat, c: Coding, h: Hash, leaves: seq<Bytes>)
    requires n > 0 && IsConfig(BroadcastSpec.Config(NetInfo(n, 0), 0, c, h)) && CollisionFree(h) && |leaves| == n
    requires !DecodeAlike(c, h, leaves)
    ensures !AlwaysTotal(n, c, h, leaves)
  {
    hide Lawful, CollisionFree, DecodeFrom, IsCodeword, DecodeAlike, IsTotal;
    DecodeAlikeIff(c, h, leaves);
    var f := MaxFaulty(n);
    if f == 0 {
      NoParityAlike(c, h, leaves);
      assert false;
    }
    var some, more := FindSplit(n, c, h, leaves);
    var all := Validators(n);
    ValidatorsSize(n);
    var pool := all - some - more;
    assert all == some + more + pool;
    var faulty := Fill(more, pool, f);
    var sys := MakeSystem(n, c, h, faulty);
    var actions, net := SplitInSystem(sys, leaves, some, more);
    assert Reaches(sys, actions, net) && !IsTotal(sys, net, leaves);
  }

  lemma NoParityAlike(c: Coding, h: Hash, leaves: seq<Bytes>)
    requires |leaves| > 0 && c.dataShards == |leaves|
    ensures DecodeAlike(c, h, leaves)
  {
    hide DecodeFrom;
    ValidatorsSize(|leaves|);
    forall ids: set<nat> | AreEnough(c, leaves, ids) ensures ids == Validators(|leaves|) {
      FullSet(ids, |leaves|);
    }
  }

  lemma MakeSystem(n: nat, c: Coding, h: Hash, faulty: set<nat>) returns (sys: System)
    requires n > 0 && IsConfig(BroadcastSpec.Config(NetInfo(n, 0), 0, c, h)) && CollisionFree(h)
    requires faulty <= Validators(n) && |faulty| == MaxFaulty(n) > 0
    ensures sys.Valid() && sys.n == n && sys.coding == c && sys.hash == h
    ensures sys.faulty == faulty && sys.correct == Validators(n) - faulty && sys.proposerId in faulty
  {
    hide Lawful, CollisionFree;
    var d :| d in faulty;
    sys := System(n, faulty, Validators(n) - faulty, d, c, h);
  }

  lemma SplitInSystem(sys: System, leaves: seq<Bytes>, some: set<nat>, more: set<nat>)
    returns (actions: seq<Action>, net: Network)
    requires sys.Valid() && |leaves| == sys.n && MaxFaulty(sys.n) > 0
    requires sys.faulty <= Validators(sys.n) && |sys.faulty| == MaxFaulty(sys.n) && sys.proposerId in sys.faulty
    requires sys.correct == Validators(sys.n) - sys.faulty
    requires some <= sys.correct && more <= sys.faulty && |some| >= sys.n - 2 * MaxFaulty(sys.n)
    requires DecodeFrom(sys.coding, sys.hash, leaves, some).None?
    requires DecodeFrom(sys.coding, sys.hash, leaves, some + more).Some?
    ensures Reaches(sys, actions, net) && !IsTotal(sys, net, leaves)
  {
    hide Lawful, CollisionFree, DecodeFrom, Reaches, Quiescent, OutputFrom;
    var play := Play(sys, leaves);
    var a, b, c := ThreeCorrect(sys);
    var plan := Plan(some, more, a, c);
    assert plan.Fits(play);
    actions, net := SplitRun(play, plan, b);
    var v := DecodeFrom(sys.coding, sys.hash, leaves, some + more).value;
    forall id: nat | id < sys.n
      ensures (id, Ready(Root(sys.hash, Leaves(sys.hash, leaves)))) in net[a].history.heard
    {
      assert (id, Ready(play.Root())) in net[a].history.heard;
    }
    AllReady(sys, net, leaves, a, some + more);
    assert v in net[a].history.outputs && StandsFor(sys, net, a, leaves, v);
  }

  lemma Pick(s: set<nat>) returns (x: nat)
    requires |s| > 0
    ensures x in s && |s - {x}| == |s| - 1
  {
    x :| x in s;
  }

  lemma ThreeCorrect(sys: System) returns (a: nat, b: nat, c: nat)
    requires sys.n > 0 && MaxFaulty(sys.n) > 0 && sys.faulty <= Validators(sys.n)
    requires |sys.faulty| == MaxFaulty(sys.n) && sys.correct == Validators(sys.n) - sys.faulty
    ensures a in sys.correct && b in sys.correct && c in sys.correct && a != b && b != c && a != c
  {
    ValidatorsSize(sys.n);
    var rest := sys.correct;
    assert |rest| == sys.n - MaxFaulty(sys.n);
    a := Pick(rest);
    b := Pick(rest - {a});
    c := Pick(rest - {a} - {b});
  }

  /** A node that has heard all readys, and decodes some of the leaves, has what it needs to
      output what they stand for. */
  lemma AllReady(sys: System, net: Network, leaves: seq<Bytes>, i: nat, ids: set<nat>)
    requires sys.Valid() && |leaves| == sys.n && i in net && ids <= Validators(sys.n)
    requires DecodeFrom(sys.coding, sys.hash, leaves, ids).Some?
    requires forall id: nat :: id < sys.n ==>
               (id, Ready(Root(sys.hash, Leaves(sys.hash, leaves)))) in net[i].history.heard
    ensures StandsFor(sys, net, i, leaves, DecodeFrom(sys.coding, sys.hash, leaves, ids).value)
  {
    hide CollisionFree, DecodeFrom, IsCodeword, Root, Leaves, Payload;
    assert IsConfig(sys.Config(0));
    DecodedIsLeaves(sys.coding, sys.hash, leaves, ids);
    assert IsCompletion(sys.coding, Those(leaves, ids), leaves);
    ValidatorsSize(sys.n);
    var root := Root(sys.hash, Leaves(sys.hash, leaves));
    var voters := ReadyVoters(sys.Config(i), net[i].history, root);
    assert Validators(sys.n) <= voters;
    SubsetSize(Validators(sys.n), voters);
  }

  /** Reliable Broadcast with these leaves is total in every run exactly if the leaves decode
      alike: with parity shards, exactly if they are a codeword or do not decode at all. */
  lemma TotalityIff(n: nat, c: Coding, h: Hash, leaves: seq<Bytes>)
    requires n > 0 && IsConfig(BroadcastSpec.Config(NetInfo(n, 0), 0, c, h)) && CollisionFree(h) && |leaves| == n
    ensures AlwaysTotal(n, c, h, leaves) <==> DecodeAlike(c, h, leaves)
    ensures AlwaysTotal(n, c, h, leaves)
            <==> c.Trivial? || IsCodeword(c, leaves) || DecodeFrom(c, h, leaves, Validators(n)).None?
  {
    hide Lawful, CollisionFree, DecodeFrom, IsCodeword, DecodeAlike, IsTotal, Reaches;
    DecodeAlikeIff(c, h, leaves);
    if DecodeAlike(c, h, leaves) {
      forall sys: System, actions: seq<Action>, net: Network |
        sys.Valid() && sys.n == n && sys.coding == c && sys.hash == h && Reaches(sys, actions, net)
        ensures IsTotal(sys, net, leaves)
      {
        AlikeIsTotal(sys, actions, net, leaves);
      }
    } else {
      NotAlikeNotTotal(n, c, h, leaves);
    }
  }

  /** With the small code and leaves that do not fit, four nodes can end up apart. */
  lemma MisfitsSplit(h: Hash)
    requires CollisionFree(h)
    ensures !AlwaysTotal(4, SmallCode.SmallCoding(), h, SmallCode.Misfit())
  {
    hide Lawful, CollisionFree, DecodeFrom, IsCodeword, DecodeAlike, AlwaysTotal;
    SmallCode.SmallCodingIsLawful();
    SmallCode.MisfitsDiffer(h);
    TotalityIff(4, SmallCode.SmallCoding(), h, SmallCode.Misfit());
  }
}
