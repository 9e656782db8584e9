/** Runs of Reliable Broadcast in which a faulty proposer makes some correct nodes output its
    value and others not: whenever its leaves do not decode alike. */
module BroadcastSplit {
  import opened Options
  import opened Quorums
  import opened Merkle
  import opened ErasureCoding
  import opened ShardSubsets
  import opened BroadcastSpec
  import opened BroadcastNode
  import opened BroadcastNetwork
  import BroadcastSafety

  // ----- One node -----

  /** What is played: a system with a faulty proposer, and the leaves that it commits to. */
  datatype Play = Play(sys: System, leaves: seq<Bytes>) {
    ghost predicate Valid() {
      && sys.Valid() && |leaves| == sys.n
      && MaxFaulty(sys.n) > 0
      && sys.proposerId in sys.faulty && sys.proposerId < sys.n
      && sys.correct == Validators(sys.n) - sys.faulty
    }

    function Root(): Digest
      requires |leaves| > 0
    {
      Merkle.Root(sys.hash, Leaves(sys.hash, leaves))
    }

    function ProofFor(id: nat): Proof
      requires id < |leaves|
    {
      ProofOf(sys.hash, leaves, id)
    }

    function Decode(ids: set<nat>): Option<Bytes>
      requires |leaves| > 0
    {
      DecodeFrom(sys.coding, sys.hash, leaves, ids)
    }
  }

  /** Whose echos and readys a node has counted, and what it has sent. */
  datatype Progress = Progress(echos: set<nat>, readys: set<nat>, echoSent: bool, readySent: bool) {
    ghost predicate Valid(n: nat, id: nat) {
      && echos <= Validators(n) && readys <= Validators(n) && id < n
      && (id in readys <==> readySent)
      && (id in echos <==> echoSent)
    }
  }

  predicate IsDecided(play: Play, g: Progress)
    requires |play.leaves| == play.sys.n > 0
  {
    && |g.readys| > 2 * MaxFaulty(play.sys.n)
    && |g.echos| >= play.sys.coding.dataShards
    && play.Decode(g.echos).Some?
  }

  /** The state of a node that has got so far. */
  function StateOf(play: Play, g: Progress): State
    requires |play.leaves| == play.sys.n > 0
  {
    State(false, g.echoSent, g.readySent, IsDecided(play, g),
          map id | id in g.echos && id < play.sys.n :: play.ProofFor(id),
          map id | id in g.readys :: play.Root())
  }

  function SentBy(play: Play, id: nat, g: Progress): set<(Target, Message)>
    requires |play.leaves| == play.sys.n > id
  {
    (if g.echoSent then {(All, Echo(play.ProofFor(id)))} else {})
    + (if g.readySent then {(All, Ready(play.Root()))} else {})
  }

  ghost predicate HasHeard(play: Play, h: History, g: Progress)
    requires |play.leaves| == play.sys.n > 0
  {
    && (forall id :: id in g.echos && id < play.sys.n ==> (id, Echo(play.ProofFor(id))) in h.heard)
    && (forall id :: id in g.readys ==> (id, Ready(play.Root())) in h.heard)
  }

  ghost predicate IsPeer(play: Play, id: nat, g: Progress, p: Peer)
    requires |play.leaves| == play.sys.n > id
  {
    && p.state == StateOf(play, g)
    && p.history.sent == SentBy(play, id, g)
    && HasHeard(play, p.history, g)
    && p.history.outputs == if IsDecided(play, g) then [play.Decode(g.echos).value] else []
  }

  lemma CountsOf(play: Play, g: Progress)
    requires play.Valid() && g.echos <= Validators(play.sys.n)
    ensures var s := StateOf(play, g);
            && EchosOf(s, play.Root()) == g.echos && ReadysOf(s, play.Root()) == g.readys
            && LeafValues(play.sys.Config(0), s, play.Root()) == Those(play.leaves, g.echos)
  {
  }

  // ----- What a message does -----

  /** As `StateOf`, but the output may still have to be tried. */
  function StateWith(play: Play, g: Progress, decided: bool): State
    requires |play.leaves| == play.sys.n > 0
  {
    StateOf(play, g).(decided := decided)
  }

  /** What a call sends and outputs. Faults do not matter here. */
  ghost predicate Does(play: Play, r: Outcome, g: Progress, messages: seq<(Target, Message)>, output: seq<Bytes>)
    requires |play.leaves| == play.sys.n > 0
  {
    r.state == StateOf(play, g) && r.step.messages == messages && r.step.output == output
  }

  function NewOutput(play: Play, g: Progress, decided: bool): seq<Bytes>
    requires |play.leaves| == play.sys.n > 0
  {
    if IsDecided(play, g) && !decided then [play.Decode(g.echos).value] else []
  }

  lemma OnTry(play: Play, id: nat, g: Progress, decided: bool)
    requires play.Valid() && g.echos <= Validators(play.sys.n) && id < play.sys.n
    requires decided ==> IsDecided(play, g)
    ensures var r := ComputeOutput(play.sys.Config(id), StateWith(play, g, decided), play.Root());
            Does(play, r, g, [], NewOutput(play, g, decided))
  {
    hide DecodeFrom, LeafValues, Those, EchosOf, ReadysOf, Decoded, Lawful, CollisionFree, Play.Root, Play.ProofFor;
    var cfg, s := play.sys.Config(id), StateWith(play, g, decided);
    SameCounts(play, id, g, decided);
    BroadcastSafety.DecodedIsThose(cfg, s, play.Root(), play.leaves, g.echos);
  }

  lemma SameCounts(play: Play, id: nat, g: Progress, decided: bool)
    requires play.Valid() && g.echos <= Validators(play.sys.n) && id < play.sys.n
    ensures var s := StateWith(play, g, decided);
            && EchosOf(s, play.Root()) == g.echos && ReadysOf(s, play.Root()) == g.readys
            && LeafValues(play.sys.Config(id), s, play.Root()) == Those(play.leaves, g.echos)
            && Root(play.sys.hash, Leaves(play.sys.hash, play.leaves)) == play.Root()
  {
    CountsOf(play, g);
    var s := StateWith(play, g, decided);
    assert EchosOf(s, play.Root()) == EchosOf(StateOf(play, g), play.Root());
    assert ReadysOf(s, play.Root()) == ReadysOf(StateOf(play, g), play.Root());
  }

  function AfterEcho(play: Play, id: nat, g: Progress, j: nat): Progress
    requires play.sys.n > 0
  {
    var g1 := g.(echos := g.echos + {j});
    if |g1.echos| >= play.sys.n - MaxFaulty(play.sys.n) && !g.readySent then
      g1.(readySent := true, readys := g.readys + {id})
    else g1
  }

  lemma OnEcho(play: Play, id: nat, g: Progress, j: nat)
    requires play.Valid() && g.echos <= Validators(play.sys.n) && id < play.sys.n && j < play.sys.n && j !in g.echos
    requires g.readys <= {id} && (id in g.readys <==> g.readySent)
    ensures var r := HandleEcho(play.sys.Config(id), StateOf(play, g), j, play.ProofFor(j));
            var g1 := AfterEcho(play, id, g, j);
            Does(play, r, g1, if g1.readySent && !g.readySent then [(All, Ready(play.Root()))] else [], [])
  {
    hide DecodeFrom, Lawful, CollisionFree, IsValid, LeafValues, ComputeOutput, EchosOf, ReadysOf, IsDecided, Branch;
    var cfg, p := play.sys.Config(id), play.ProofFor(j);
    var s := StateOf(play, g);
    ProofsAreValid(play.sys.hash, play.leaves, j);
    var g1 := g.(echos := g.echos + {j});
    NotDecided(play, id, g);
    NotDecided(play, id, g1);
    assert j in Validators(play.sys.n) by {
      assert IsBelow(j, play.sys.n);
    }
    assert s.(echos := s.echos[j := p]) == StateOf(play, g1);
    SameCounts(play, id, g1, false);
    if g.readySent || |g1.echos| < cfg.net.NumCorrect() {
      OnTry(play, id, g1, false);
    } else {
      OnOwnReady(play, id, g1);
    }
  }

  lemma NotDecided(play: Play, id: nat, g: Progress)
    requires play.Valid() && g.readys <= {id}
    ensures !IsDecided(play, g)
  {
    SubsetSize(g.readys, {id});
  }

  /** The first `Ready` that a node counts is its own. */
  lemma OnOwnReady(play: Play, id: nat, g: Progress)
    requires play.Valid() && g.echos <= Validators(play.sys.n) && id < play.sys.n
    requires g.readys == {} && !g.readySent
    ensures var r := SendReady(play.sys.Config(id), StateOf(play, g), play.Root());
            Does(play, r, g.(readySent := true, readys := {id}), [(All, Ready(play.Root()))], [])
  {
    hide DecodeFrom, Lawful, CollisionFree, LeafValues, ComputeOutput, EchosOf, ReadysOf, IsDecided;
    hide Play.Root, Play.ProofFor;
    var g1 := g.(readySent := true, readys := {id});
    var s := StateOf(play, g);
    NotDecided(play, id, g);
    NotDecided(play, id, g1);
    var s1 := s.(readySent := true, readys := s.readys[id := play.Root()]);
    assert s1 == StateOf(play, g1);
    SameCounts(play, id, g1, false);
    OnTry(play, id, g1, false);
  }

  function AfterReady(play: Play, id: nat, g: Progress, j: nat): Progress
    requires play.sys.n > 0
  {
    var g1 := g.(readys := g.readys + {j});
    if |g1.readys| == MaxFaulty(play.sys.n) + 1 && !g.readySent then
      g1.(readySent := true, readys := g1.readys + {id})
    else g1
  }

  lemma OnReady(play: Play, id: nat, g: Progress, j: nat)
    requires play.Valid() && g.echos <= Validators(play.sys.n) && id < play.sys.n
    requires j !in g.readys && j != id && (id in g.readys <==> g.readySent)
    ensures var r := HandleReady(play.sys.Config(id), StateOf(play, g), j, play.Root());
            var g1 := AfterReady(play, id, g, j);
            Does(play, r, g1, if g1.readySent && !g.readySent then [(All, Ready(play.Root()))] else [],
                 NewOutput(play, g1, IsDecided(play, g)))
  {
    hide DecodeFrom, Lawful, CollisionFree, LeafValues, ComputeOutput, EchosOf, ReadysOf, IsDecided;
    hide Play.Root, Play.ProofFor;
    var cfg, s, g1 := play.sys.Config(id), StateOf(play, g), g.(readys := g.readys + {j});
    var decided := IsDecided(play, g);
    var s1 := s.(readys := s.readys[j := play.Root()]);
    assert s1 == StateWith(play, g1, decided);
    SameCounts(play, id, g1, decided);
    StaysDecided(play, g, g1);
    if |g1.readys| == MaxFaulty(play.sys.n) + 1 && !g.readySent {
      TooFewDecided(play, g1);
      StaysDecided(play, g, g1);
      OnAmplified(play, id, g1);
      var g2 := AfterReady(play, id, g, j);
      OnTry(play, id, g2, IsDecided(play, g2));
      assert StateWith(play, g2, IsDecided(play, g2)) == StateOf(play, g2);
    } else {
      OnTry(play, id, g1, decided);
    }
  }

  lemma StaysDecided(play: Play, g: Progress, g1: Progress)
    requires play.Valid() && g1.echos == g.echos && g.readys <= g1.readys
    ensures IsDecided(play, g) ==> IsDecided(play, g1)
  {
    SubsetSize(g.readys, g1.readys);
  }

  lemma TooFewDecided(play: Play, g: Progress)
    requires play.Valid() && |g.readys| <= MaxFaulty(play.sys.n) + 1
    ensures !IsDecided(play, g)
  {
  }

  /** Having counted `f + 1` readys of others, a node sends its own and tries to output. */
  lemma OnAmplified(play: Play, id: nat, g: Progress)
    requires play.Valid() && g.echos <= Validators(play.sys.n) && id < play.sys.n
    requires id !in g.readys && !g.readySent && |g.readys| == MaxFaulty(play.sys.n) + 1
    ensures var r := SendReady(play.sys.Config(id), StateOf(play, g), play.Root());
            var g1 := g.(readySent := true, readys := g.readys + {id});
            Does(play, r, g1, [(All, Ready(play.Root()))], NewOutput(play, g1, false))
  {
    hide DecodeFrom, Lawful, CollisionFree, LeafValues, ComputeOutput, EchosOf, ReadysOf, IsDecided;
    hide Play.Root, Play.ProofFor;
    var g1 := g.(readySent := true, readys := g.readys + {id});
    var s := StateOf(play, g);
    TooFewDecided(play, g);
    var s1 := s.(readySent := true, readys := s.readys[id := play.Root()]);
    assert s1 == StateWith(play, g1, false);
    SameCounts(play, id, g1, false);
    OnTry(play, id, g1, false);
  }

  const NOTHING := Progress({}, {}, false, false)

  lemma OnValue(play: Play, id: nat)
    requires play.Valid() && id < play.sys.n
    ensures var r := HandleValue(play.sys.Config(id), StateOf(play, NOTHING), play.sys.proposerId, play.ProofFor(id));
            Does(play, r, Progress({id}, {}, true, false), [(All, Echo(play.ProofFor(id)))], [])
  {
    hide DecodeFrom, Lawful, CollisionFree, LeafValues, HandleEcho, EchosOf, ReadysOf, IsDecided, IsValid, Branch;
    ProofsAreValid(play.sys.hash, play.leaves, id);
    NotDecided(play, id, NOTHING);
    var g := NOTHING.(echoSent := true);
    NotDecided(play, id, g);
    assert StateOf(play, NOTHING).(echoSent := true) == StateOf(play, g);
    OnEcho(play, id, g, id);
    assert {} + {id} == {id};
    assert AfterEcho(play, id, g, id) == Progress({id}, {}, true, false);
    EnoughMoreThanOne(play.sys.n);
  }

  lemma EnoughMoreThanOne(n: nat)
    requires n > 0 && MaxFaulty(n) > 0
    ensures n - MaxFaulty(n) > 2 * MaxFaulty(n) >= 2
  {
  }

  // ----- The network -----

  /** Where all correct nodes are. */
  type World = map<nat, Progress>

  ghost predicate Fits(play: Play, w: World, net: Network)
    requires |play.leaves| == play.sys.n > 0
  {
    && net.Keys == w.Keys == play.sys.correct
    && forall i :: i in w ==> i < play.sys.n && w[i].Valid(play.sys.n, i) && IsPeer(play, i, w[i], net[i])
  }

  /** Some run gets there. */
  ghost predicate CanReach(play: Play, w: World)
    requires |play.leaves| == play.sys.n > 0
  {
    exists actions: seq<Action>, net: Network :: Reaches(play.sys, actions, net) && Fits(play, w, net)
  }

  /** What `to` does with a message takes it from `g` to `g1`. */
  ghost predicate Moves(
    play: Play, to: nat, from: nat, m: Message, g: Progress, g1: Progress, messages: seq<(Target, Message)>)
    requires |play.leaves| == play.sys.n > to
  {
    && g1.Valid(play.sys.n, to)
    && HandleMessage(play.sys.Config(to), StateOf(play, g), from, m).Done?
    && Does(play, Result(HandleMessage(play.sys.Config(to), StateOf(play, g), from, m)), g1, messages,
            NewOutput(play, g1, IsDecided(play, g)))
    && (IsDecided(play, g) ==> IsDecided(play, g1) && g1.echos == g.echos)
    && Accounts(play, to, from, m, g, g1, messages)
  }

  /** Whatever `g1` says more than `g` comes from this message, or is multicast now. */
  ghost predicate Accounts(
    play: Play, to: nat, from: nat, m: Message, g: Progress, g1: Progress, messages: seq<(Target, Message)>)
    requires |play.leaves| == play.sys.n > to
  {
    && SentBy(play, to, g1) == SentBy(play, to, g) + (set x | x in messages)
    && (forall id :: id in g1.echos && id < play.sys.n ==>
          id in g.echos || (id, Echo(play.ProofFor(id))) == (from, m)
          || (id == to && (All, Echo(play.ProofFor(to))) in messages))
    && (forall id :: id in g1.readys ==>
          id in g.readys || (id, Ready(play.Root())) == (from, m)
          || (id == to && (All, Ready(play.Root())) in messages))
  }

  function Result(r: Reply): Outcome
    requires r.Done?
  {
    Outcome(r.state, r.step)
  }

  lemma PeerMoves(
    play: Play, to: nat, from: nat, m: Message, g: Progress, g1: Progress, messages: seq<(Target, Message)>, p: Peer)
    requires play.Valid() && to < play.sys.n && IsPeer(play, to, g, p) && Moves(play, to, from, m, g, g1, messages)
    ensures var cfg := play.sys.Config(to);
            var r := HandleMessage(cfg, p.state, from, m);
            && r.Done?
            && IsPeer(play, to, g1, Peer(r.state, Extend(cfg, p.history.(heard := p.history.heard + {(from, m)}), r.step)))
  {
    hide HandleMessage, IsDecided, Play.Root, Play.ProofFor, Play.Decode, StateOf;
    var cfg := play.sys.Config(to);
    var r := HandleMessage(cfg, p.state, from, m);
    var h := Extend(cfg, p.history.(heard := p.history.heard + {(from, m)}), r.step);
    assert h.sent == SentBy(play, to, g1);
    assert HasHeard(play, h, g1);
  }

  /** If a correct sender has sent the message, or a faulty one may, there is a run in which it
      is handled next. */
  lemma Delivers(play: Play, w: World, to: nat, from: nat, m: Message, g1: Progress, messages: seq<(Target, Message)>)
    requires play.Valid() && CanReach(play, w) && to in w && to < play.sys.n && from < play.sys.n && from != to
    requires from in w ==> (All, m) in SentBy(play, from, w[from])
    requires Moves(play, to, from, m, w[to], g1, messages)
    ensures CanReach(play, w[to := g1])
  {
    hide Moves, SentBy, Fits, Reaches, Lawful, CollisionFree;
    var actions: seq<Action>, net: Network :| Reaches(play.sys, actions, net) && Fits(play, w, net);
    DeliversFrom(play, w, actions, net, Deliver(to, from, m), g1, messages);
  }

  lemma DeliversFrom(
    play: Play, w: World, actions: seq<Action>, net: Network, a: Action, g1: Progress, messages: seq<(Target, Message)>)
    requires play.Valid() && Reaches(play.sys, actions, net) && Fits(play, w, net)
    requires a.Deliver? && a.to in w && a.to < play.sys.n && a.from < play.sys.n && a.from != a.to
    requires a.from in w ==> (All, a.msg) in SentBy(play, a.from, w[a.from])
    requires Moves(play, a.to, a.from, a.msg, w[a.to], g1, messages)
    ensures CanReach(play, w[a.to := g1])
  {
    hide Moves, SentBy, Fits, Reaches, Enabled, WellFormed, Apply, Lawful, CollisionFree;
    IsEnabled(play, w, net, a);
    RunExtends(play.sys, actions, net, a);
    var next := Apply(play.sys, net, a);
    NextFits(play, w, net, a, g1, messages);
    assert Reaches(play.sys, actions + [a], next) && Fits(play, w[a.to := g1], next);
  }

  lemma IsEnabled(play: Play, w: World, net: Network, a: Action)
    requires play.Valid() && Fits(play, w, net)
    requires a.Deliver? && a.to in w && a.from != a.to && a.from < play.sys.n
    requires a.from in w ==> (All, a.msg) in SentBy(play, a.from, w[a.from])
    ensures Enabled(net, a)
  {
    hide SentBy, StateOf, IsDecided, HasHeard, Lawful, CollisionFree;
    assert a.from in net ==> a.from in w && net[a.from].history.sent == SentBy(play, a.from, w[a.from]);
  }

  lemma NextFits(play: Play, w: World, net: Network, a: Action, g1: Progress, messages: seq<(Target, Message)>)
    requires play.Valid() && Fits(play, w, net) && a.Deliver? && a.to in w && a.to < play.sys.n
    requires WellFormed(play.sys, net) && Enabled(net, a) && Moves(play, a.to, a.from, a.msg, w[a.to], g1, messages)
    ensures Fits(play, w[a.to := g1], Apply(play.sys, net, a))
  {
    hide HandleMessage, IsDecided, SentBy, StateOf, HasHeard, Lawful, CollisionFree, Extend, IsPeer, Does;
    PeerMoves(play, a.to, a.from, a.msg, w[a.to], g1, messages, net[a.to]);
  }

  // ----- Single steps -----

  lemma ValueStep(play: Play, w: World, i: nat)
    requires play.Valid() && CanReach(play, w) && i in w && i < play.sys.n && w[i] == NOTHING
    requires play.sys.proposerId !in w && i != play.sys.proposerId
    ensures CanReach(play, w[i := Progress({i}, {}, true, false)])
  {
    hide CanReach, HandleValue, StateOf, Lawful, CollisionFree, IsDecided, Play.Root, Play.ProofFor;
    OnValue(play, i);
    var g1 := Progress({i}, {}, true, false);
    NotDecided(play, i, NOTHING);
    NotDecided(play, i, g1);
    assert IsBelow(i, play.sys.n);
    var messages := [(All, Echo(play.ProofFor(i)))];
    assert Moves(play, i, play.sys.proposerId, Value(play.ProofFor(i)), NOTHING, g1, messages);
    Delivers(play, w, i, play.sys.proposerId, Value(play.ProofFor(i)), g1, messages);
  }

  function Announced(play: Play, g: Progress, g1: Progress): seq<(Target, Message)>
    requires |play.leaves| == play.sys.n > 0
  {
    if g1.readySent && !g.readySent then [(All, Ready(play.Root()))] else []
  }

  lemma EchoMoves(play: Play, i: nat, j: nat, g: Progress)
    requires play.Valid() && g.Valid(play.sys.n, i) && g.readys <= {i}
    requires j < play.sys.n && j != i && j !in g.echos
    ensures var g1 := AfterEcho(play, i, g, j);
            && g1.readys <= {i}
            && Moves(play, i, j, Echo(play.ProofFor(j)), g, g1, Announced(play, g, g1))
  {
    hide HandleEcho, StateOf, Lawful, CollisionFree, IsDecided, Play.Root, Play.ProofFor, Accounts, Does;
    OnEcho(play, i, g, j);
    var g1 := AfterEcho(play, i, g, j);
    NotDecided(play, i, g);
    NotDecided(play, i, g1);
    assert IsBelow(i, play.sys.n) && IsBelow(j, play.sys.n);
    EchoAccounts(play, i, j, g);
    EchoIsHandled(play, i, j, g);
  }

  lemma EchoIsHandled(play: Play, i: nat, j: nat, g: Progress)
    requires play.Valid() && i < play.sys.n && j < play.sys.n
    ensures var r := HandleMessage(play.sys.Config(i), StateOf(play, g), j, Echo(play.ProofFor(j)));
            r.Done? && Result(r) == HandleEcho(play.sys.Config(i), StateOf(play, g), j, play.ProofFor(j))
  {
    hide HandleEcho, StateOf, Lawful, CollisionFree, Play.ProofFor;
  }

  lemma EchoAccounts(play: Play, i: nat, j: nat, g: Progress)
    requires play.Valid() && g.Valid(play.sys.n, i) && j < play.sys.n && j != i
    ensures var g1 := AfterEcho(play, i, g, j);
            Accounts(play, i, j, Echo(play.ProofFor(j)), g, g1, Announced(play, g, g1))
  {
    var g1 := AfterEcho(play, i, g, j);
    SentGrows(play, i, g, g1);
    hide Lawful, CollisionFree, Play.Root, Play.ProofFor, SentBy, IsConfig;
    forall id | id in g1.readys && id !in g.readys
      ensures id == i && (All, Ready(play.Root())) in Announced(play, g, g1)
    {
    }
  }

  lemma SentGrows(play: Play, id: nat, g: Progress, g1: Progress)
    requires |play.leaves| == play.sys.n > id && g1.echoSent == g.echoSent && (g.readySent ==> g1.readySent)
    ensures SentBy(play, id, g1) == SentBy(play, id, g) + (set x | x in Announced(play, g, g1))
  {
    hide Play.Root, Play.ProofFor;
    var m := (All, Ready(play.Root()));
    assert (set x | x in [m]) == {m};
    var none: seq<(Target, Message)> := [];
    assert (set x | x in none) == {};
  }

  lemma ReadyIsHandled(play: Play, i: nat, j: nat, g: Progress)
    requires play.Valid() && i < play.sys.n && j < play.sys.n
    ensures var r := HandleMessage(play.sys.Config(i), StateOf(play, g), j, Ready(play.Root()));
            r.Done? && Result(r) == HandleReady(play.sys.Config(i), StateOf(play, g), j, play.Root())
  {
    hide HandleReady, StateOf, Lawful, CollisionFree, Play.Root;
  }

  lemma ReadyAccounts(play: Play, i: nat, j: nat, g: Progress)
    requires play.Valid() && g.Valid(play.sys.n, i) && j < play.sys.n && j != i
    ensures var g1 := AfterReady(play, i, g, j);
            Accounts(play, i, j, Ready(play.Root()), g, g1, Announced(play, g, g1))
  {
    var g1 := AfterReady(play, i, g, j);
    SentGrows(play, i, g, g1);
    hide Lawful, CollisionFree, Play.Root, Play.ProofFor, SentBy, IsConfig;
    forall id | id in g1.readys && id !in g.readys && id != j
      ensures id == i && (All, Ready(play.Root())) in Announced(play, g, g1)
    {
    }
  }

  lemma EchoStep(play: Play, w: World, i: nat, j: nat)
    requires play.Valid() && CanReach(play, w) && i in w && w[i].Valid(play.sys.n, i) && w[i].readys <= {i}
    requires j < play.sys.n && j != i && j !in w[i].echos && (j in w ==> w[j].echoSent)
    ensures CanReach(play, w[i := AfterEcho(play, i, w[i], j)])
    ensures AfterEcho(play, i, w[i], j).Valid(play.sys.n, i) && AfterEcho(play, i, w[i], j).readys <= {i}
  {
    var g1 := AfterEcho(play, i, w[i], j);
    EchoMoves(play, i, j, w[i]);
    MovesValid(play, i, j, Echo(play.ProofFor(j)), w[i], g1, Announced(play, w[i], g1));
    hide CanReach, Moves, AfterEcho, Progress.Valid, Lawful, CollisionFree, Play.Root, Play.ProofFor;
    Delivers(play, w, i, j, Echo(play.ProofFor(j)), g1, Announced(play, w[i], g1));
  }

  lemma MovesValid(
    play: Play, to: nat, from: nat, m: Message, g: Progress, g1: Progress, messages: seq<(Target, Message)>)
    requires |play.leaves| == play.sys.n > to && Moves(play, to, from, m, g, g1, messages)
    ensures g1.Valid(play.sys.n, to)
  {
    hide HandleMessage, StateOf, IsDecided, Does, SentBy;
  }

  lemma ReadyMoves(play: Play, i: nat, j: nat, g: Progress)
    requires play.Valid() && g.Valid(play.sys.n, i)
    requires j < play.sys.n && j != i && j !in g.readys
    ensures var g1 := AfterReady(play, i, g, j);
            Moves(play, i, j, Ready(play.Root()), g, g1, Announced(play, g, g1))
  {
    hide HandleReady, StateOf, Lawful, CollisionFree, IsDecided, Play.Root, Play.ProofFor, Accounts, Does, NewOutput;
    OnReady(play, i, g, j);
    var g1 := AfterReady(play, i, g, j);
    StaysDecided(play, g, g1);
    assert IsBelow(i, play.sys.n) && IsBelow(j, play.sys.n);
    ReadyAccounts(play, i, j, g);
    ReadyIsHandled(play, i, j, g);
  }

  lemma ReadyStep(play: Play, w: World, i: nat, j: nat)
    requires play.Valid() && CanReach(play, w) && i in w && w[i].Valid(play.sys.n, i)
    requires j < play.sys.n && j != i && j !in w[i].readys && (j in w ==> w[j].readySent)
    ensures CanReach(play, w[i := AfterReady(play, i, w[i], j)])
    ensures AfterReady(play, i, w[i], j).Valid(play.sys.n, i)
  {
    var g1 := AfterReady(play, i, w[i], j);
    ReadyMoves(play, i, j, w[i]);
    MovesValid(play, i, j, Ready(play.Root()), w[i], g1, Announced(play, w[i], g1));
    hide CanReach, Moves, AfterReady, Progress.Valid, Lawful, CollisionFree, Play.Root, Play.ProofFor;
    Delivers(play, w, i, j, Ready(play.Root()), g1, Announced(play, w[i], g1));
  }

  // ----- Phases -----

  /** Nodes hear from their proposer. */
  lemma {:induction false} HearValues(play: Play, w: World, ids: set<nat>) returns (w': World)
    requires play.Valid() && CanReach(play, w) && w.Keys == play.sys.correct && ids <= play.sys.correct
    requires forall i :: i in ids ==> w[i] == NOTHING
    ensures CanReach(play, w') && w'.Keys == w.Keys
    ensures forall i :: i in w ==> w'[i] == if i in ids then Progress({i}, {}, true, false) else w[i]
    decreases |ids|
  {
    hide CanReach, Lawful, CollisionFree;
    if ids == {} {
      w' := w;
    } else {
      var i :| i in ids;
      ValueStep(play, w, i);
      w' := HearValues(play, w[i := Progress({i}, {}, true, false)], ids - {i});
    }
  }

  /** The node has sent its `Ready` if it has counted enough echos. */
  ghost predicate EchosCounted(play: Play, i: nat, g: Progress)
    requires play.sys.n > 0
  {
    && g.Valid(play.sys.n, i) && g.readys <= {i}
    && (|g.echos| >= play.sys.n - MaxFaulty(play.sys.n) ==> g.readySent)
  }

  lemma EchoAdds(play: Play, i: nat, g: Progress, j: nat)
    requires play.sys.n > 0 && EchosCounted(play, i, g) && AfterEcho(play, i, g, j).Valid(play.sys.n, i)
    ensures AfterEcho(play, i, g, j).echos == g.echos + {j} && AfterEcho(play, i, g, j).echoSent == g.echoSent
    ensures EchosCounted(play, i, AfterEcho(play, i, g, j))
  {
  }

  lemma OneEcho(play: Play, w: World, i: nat, j: nat) returns (g: Progress)
    requires play.Valid() && CanReach(play, w) && i in w && EchosCounted(play, i, w[i])
    requires j in Validators(play.sys.n) && j != i && j !in w[i].echos && (j in w ==> w[j].echoSent)
    ensures CanReach(play, w[i := g]) && EchosCounted(play, i, g)
    ensures g.echos == w[i].echos + {j} && g.echoSent == w[i].echoSent
  {
    hide CanReach, Lawful, CollisionFree, AfterEcho;
    EchoStep(play, w, i, j);
    g := AfterEcho(play, i, w[i], j);
    EchoAdds(play, i, w[i], j);
  }

  lemma {:induction false} HearEchos(play: Play, w: World, i: nat, ids: set<nat>) returns (g: Progress)
    requires play.Valid() && CanReach(play, w) && i in w && EchosCounted(play, i, w[i])
    requires ids <= Validators(play.sys.n) && i !in ids && ids !! w[i].echos
    requires forall j :: j in ids && j in w ==> w[j].echoSent
    ensures CanReach(play, w[i := g]) && EchosCounted(play, i, g)
    ensures g.echos == w[i].echos + ids && g.echoSent == w[i].echoSent
    decreases |ids|
  {
    hide CanReach, System.Valid, Validators, MaxFaulty, EchosCounted;
    if ids == {} {
      g := w[i];
      assert w[i := g] == w;
    } else {
      var j :| j in ids;
      var g1 := OneEcho(play, w, i, j);
      var rest := ids - {j};
      assert rest !! g1.echos && g1.echos + rest == w[i].echos + ids;
      g := HearEchos(play, w[i := g1], i, rest);
      assert w[i := g1][i := g] == w[i := g];
    }
  }

  lemma {:induction false} AllHearEchos(play: Play, w: World, nodes: set<nat>, targets: map<nat, set<nat>>)
    returns (w': World)
    requires play.Valid() && CanReach(play, w) && nodes <= w.Keys && nodes <= targets.Keys
    requires forall i :: i in nodes ==>
               EchosCounted(play, i, w[i]) && w[i].echos <= targets[i] <= Validators(play.sys.n)
    requires forall i :: i in nodes ==> (i in targets[i] <==> i in w[i].echos)
    requires forall i, j :: i in nodes && j in targets[i] && j in w ==> w[j].echoSent
    ensures CanReach(play, w') && w'.Keys == w.Keys
    ensures forall i :: i in nodes ==> EchosCounted(play, i, w'[i]) && w'[i].echos == targets[i]
    ensures forall i :: i in w ==> w'[i].echoSent == w[i].echoSent && (i !in nodes ==> w'[i] == w[i])
    decreases |nodes|
  {
    hide CanReach, Lawful, CollisionFree, EchosCounted;
    if nodes == {} {
      w' := w;
    } else {
      var i :| i in nodes;
      assert i in w && EchosCounted(play, i, w[i]);
      var g := HearEchos(play, w, i, targets[i] - w[i].echos);
      w' := AllHearEchos(play, w[i := g], nodes - {i}, targets);
    }
  }

  /** The node has sent its `Ready` if it has counted enough of them. */
  ghost predicate ReadysCounted(play: Play, i: nat, g: Progress)
    requires play.sys.n > 0
  {
    g.Valid(play.sys.n, i) && (!g.readySent ==> |g.readys| <= MaxFaulty(play.sys.n))
  }

  lemma ReadyAdds(play: Play, i: nat, g: Progress, j: nat)
    requires play.sys.n > 0 && ReadysCounted(play, i, g) && AfterReady(play, i, g, j).Valid(play.sys.n, i)
    requires j !in g.readys
    ensures var g1 := AfterReady(play, i, g, j);
            && g1.echos == g.echos && g1.echoSent == g.echoSent && (g.readySent ==> g1.readySent)
            && g.readys + {j} <= g1.readys <= g.readys + {j, i}
            && ReadysCounted(play, i, g1)
  {
  }

  lemma OneReady(play: Play, w: World, i: nat, j: nat) returns (g: Progress)
    requires play.Valid() && CanReach(play, w) && i in w && ReadysCounted(play, i, w[i])
    requires j in Validators(play.sys.n) && j != i && j !in w[i].readys && (j in w ==> w[j].readySent)
    ensures CanReach(play, w[i := g]) && ReadysCounted(play, i, g)
    ensures g.echos == w[i].echos && g.echoSent == w[i].echoSent && (w[i].readySent ==> g.readySent)
    ensures w[i].readys + {j} <= g.readys <= w[i].readys + {j, i}
  {
    hide CanReach, Lawful, CollisionFree, AfterReady;
    ReadyStep(play, w, i, j);
    g := AfterReady(play, i, w[i], j);
    ReadyAdds(play, i, w[i], j);
  }

  lemma {:induction false} HearReadys(play: Play, w: World, i: nat, ids: set<nat>) returns (g: Progress)
    requires play.Valid() && CanReach(play, w) && i in w && ReadysCounted(play, i, w[i])
    requires ids <= Validators(play.sys.n) && i !in ids && ids !! w[i].readys
    requires forall j :: j in ids && j in w ==> w[j].readySent
    ensures CanReach(play, w[i := g]) && ReadysCounted(play, i, g)
    ensures g.echos == w[i].echos && w[i].readys + ids <= g.readys && g.echoSent == w[i].echoSent
    ensures w[i].readySent ==> g.readySent
    decreases |ids|
  {
    hide CanReach, System.Valid, Validators, MaxFaulty, ReadysCounted;
    if ids == {} {
      g := w[i];
      assert w[i := g] == w;
    } else {
      var j :| j in ids;
      var g1 := OneReady(play, w, i, j);
      g := HearReadys(play, w[i := g1], i, ids - {j});
      assert w[i := g1][i := g] == w[i := g];
    }
  }

  lemma {:induction false} AllHearReadys(play: Play, w: World, nodes: set<nat>, ids: set<nat>) returns (w': World)
    requires play.Valid() && CanReach(play, w) && nodes <= w.Keys && ids <= Validators(play.sys.n)
    requires forall i :: i in nodes ==> ReadysCounted(play, i, w[i])
    requires forall j :: j in ids && j in w ==> w[j].readySent
    ensures CanReach(play, w') && w'.Keys == w.Keys
    ensures forall i :: i in nodes ==> ReadysCounted(play, i, w'[i]) && ids - {i} <= w'[i].readys
    ensures forall i :: i in w ==>
              && w'[i].echos == w[i].echos && w'[i].echoSent == w[i].echoSent
              && (w[i].readySent ==> w'[i].readySent) && (i !in nodes ==> w'[i] == w[i])
    decreases |nodes|
  {
    hide CanReach, Lawful, CollisionFree, ReadysCounted;
    if nodes == {} {
      w' := w;
    } else {
      var i :| i in nodes;
      assert i in w && ReadysCounted(play, i, w[i]);
      var g := HearReadys(play, w, i, ids - {i} - w[i].readys);
      w' := AllHearReadys(play, w[i := g], nodes - {i}, ids);
    }
  }

  // ----- The run -----

  /** The proposer sends its value to the nodes in `some` only. Node `a` hears the echos of
      `more` faulty nodes, node `c` those of all of them, and the others of none. */
  datatype Plan = Plan(some: set<nat>, more: set<nat>, a: nat, c: nat) {
    ghost predicate Fits(play: Play) {
      && play.Valid()
      && play.sys.faulty <= Validators(play.sys.n) && |play.sys.faulty| == MaxFaulty(play.sys.n)
      && some <= play.sys.correct && more <= play.sys.faulty
      && |some| >= play.sys.n - 2 * MaxFaulty(play.sys.n)
      && a in play.sys.correct && c in play.sys.correct && a != c
    }

    function Target(play: Play, i: nat): set<nat> {
      if i == a then some + more else if i == c then some + play.sys.faulty else some
    }
  }

  function StartWorld(play: Play): World {
    map i | i in play.sys.correct :: NOTHING
  }

  lemma CanStart(play: Play)
    requires play.Valid()
    ensures CanReach(play, StartWorld(play))
  {
    hide Lawful, CollisionFree, IsConfig, Fits;
    var net := Initial(play.sys);
    assert IsRun(play.sys, [], [net], net);
    StartFits(play, net);
    assert Reaches(play.sys, [], net) && Fits(play, StartWorld(play), net);
  }

  lemma StartFits(play: Play, net: Network)
    requires play.Valid() && net == Initial(play.sys)
    ensures Fits(play, StartWorld(play), net)
  {
    hide Lawful, CollisionFree, IsConfig, IsPeer;
    forall i | i in play.sys.correct ensures i < play.sys.n && IsPeer(play, i, NOTHING, Peer(INITIAL, NO_HISTORY)) {
      assert i in Validators(play.sys.n);
      NothingIsPeer(play, i);
    }
  }

  lemma NothingIsPeer(play: Play, i: nat)
    requires play.Valid() && i < play.sys.n
    ensures IsPeer(play, i, NOTHING, Peer(INITIAL, NO_HISTORY))
  {
    hide Lawful, CollisionFree, IsConfig, DecodeFrom, StateOf, IsDecided;
    NotDecided(play, i, NOTHING);
    NothingIsInitial(play);
  }

  lemma NothingIsInitial(play: Play)
    requires play.Valid()
    ensures StateOf(play, NOTHING) == INITIAL
  {
    hide Lawful, CollisionFree, DecodeFrom;
    NotDecided(play, 0, NOTHING);
    assert StateOf(play, NOTHING).echos == map[] && StateOf(play, NOTHING).readys == map[];
  }

  /** All correct nodes have counted their echos. */
  lemma AfterEchos(play: Play, plan: Plan) returns (w: World)
    requires plan.Fits(play)
    ensures CanReach(play, w) && w.Keys == play.sys.correct
    ensures forall i :: i in w ==> EchosCounted(play, i, w[i]) && w[i].echos == plan.Target(play, i)
    ensures forall i :: i in w ==> (w[i].echoSent <==> i in plan.some)
  {
    hide CanReach, Lawful, CollisionFree, IsConfig, EchosCounted, Plan.Target;
    CanStart(play);
    var w1 := HearValues(play, StartWorld(play), plan.some);
    var targets := map i | i in play.sys.correct :: plan.Target(play, i);
    forall i | i in w1
      ensures EchosCounted(play, i, w1[i]) && w1[i].echos <= targets[i] <= Validators(play.sys.n)
      ensures i in targets[i] <==> i in w1[i].echos
      ensures forall j :: j in targets[i] && j in w1 ==> w1[j].echoSent
    {
      AfterValue(play, plan, i, w1[i]);
    }
    w := AllHearEchos(play, w1, play.sys.correct, targets);
  }

  lemma AfterValue(play: Play, plan: Plan, i: nat, g: Progress)
    requires plan.Fits(play) && i in play.sys.correct
    requires g == if i in plan.some then Progress({i}, {}, true, false) else NOTHING
    ensures EchosCounted(play, i, g) && g.echos <= plan.Target(play, i) <= Validators(play.sys.n)
    ensures i in plan.Target(play, i) <==> i in g.echos
    ensures forall j :: j in plan.Target(play, i) && j in play.sys.correct ==> j in plan.some
  {
    hide Lawful, CollisionFree, IsConfig;
    EnoughMoreThanOne(play.sys.n);
    assert i in Validators(play.sys.n);
  }

  lemma NotReadyNoReadys(play: Play, i: nat, g: Progress)
    requires play.sys.n > 0 && EchosCounted(play, i, g)
    ensures ReadysCounted(play, i, g)
  {
    assert !g.readySent ==> g.readys == {};
  }

  lemma EchoedIsReady(play: Play, plan: Plan, g: Progress)
    requires plan.Fits(play) && EchosCounted(play, plan.c, g) && g.echos == plan.Target(play, plan.c)
    ensures g.readySent
  {
    hide Lawful, CollisionFree, IsConfig;
    assert plan.some !! play.sys.faulty;
    assert |g.echos| == |plan.some| + |play.sys.faulty|;
  }

  lemma AmplifiedIsReady(play: Play, plan: Plan, i: nat, g: Progress)
    requires plan.Fits(play) && i != plan.c && ReadysCounted(play, i, g) && play.sys.faulty + {plan.c} - {i} <= g.readys
    requires i in play.sys.correct
    ensures g.readySent
  {
    hide Lawful, CollisionFree, IsConfig;
    assert play.sys.faulty + {plan.c} - {i} == play.sys.faulty + {plan.c};
    assert plan.c !in play.sys.faulty;
    SubsetSize(play.sys.faulty + {plan.c}, g.readys);
  }

  lemma HasAllReadys(play: Play, i: nat, g: Progress)
    requires play.sys.n > 0 && ReadysCounted(play, i, g) && g.readySent && Validators(play.sys.n) - {i} <= g.readys
    ensures g.readys == Validators(play.sys.n)
  {
  }

  /** All messages of correct nodes have been handled. */
  lemma AtTheEnd(play: Play, plan: Plan) returns (w: World)
    requires plan.Fits(play)
    ensures CanReach(play, w) && w.Keys == play.sys.correct
    ensures forall i :: i in w ==> w[i].echos == plan.Target(play, i) && w[i].readys == Validators(play.sys.n)
    ensures forall i :: i in w ==> (w[i].echoSent ==> i in plan.some)
  {
    hide CanReach, Lawful, CollisionFree, IsConfig, EchosCounted, ReadysCounted, Plan.Target;
    var all := play.sys.correct;
    var w1 := AfterEchos(play, plan);
    forall i | i in all ensures ReadysCounted(play, i, w1[i]) {
      NotReadyNoReadys(play, i, w1[i]);
    }
    EchoedIsReady(play, plan, w1[plan.c]);
    assert plan.c in Validators(play.sys.n);
    var w2 := AllHearReadys(play, w1, all, play.sys.faulty + {plan.c});
    forall i | i in all ensures w2[i].readySent {
      if i != plan.c {
        AmplifiedIsReady(play, plan, i, w2[i]);
      }
    }
    w := AllHearReadys(play, w2, all, Validators(play.sys.n));
    forall i | i in all ensures w[i].readys == Validators(play.sys.n) {
      HasAllReadys(play, i, w[i]);
    }
  }

  lemma EndIsQuiescent(play: Play, plan: Plan, w: World, net: Network)
    requires plan.Fits(play) && Fits(play, w, net)
    requires forall i :: i in w ==> w[i].echos == plan.Target(play, i) && w[i].readys == Validators(play.sys.n)
    requires forall i :: i in w ==> (w[i].echoSent ==> i in plan.some)
    ensures BroadcastSafety.Quiescent(play.sys, net)
  {
    hide Lawful, CollisionFree, IsConfig, IsPeer, Plan.Target, HasSent;
    forall i, j, m | i in net && j in net && i != j && j < play.sys.n && HasSent(net[j].history, i, m)
      ensures (j, m) in net[i].history.heard
    {
      assert IsPeer(play, i, w[i], net[i]) && IsPeer(play, j, w[j], net[j]);
      AllHeard(play, plan, i, j, w[i], w[j], net[i], net[j], m);
    }
  }

  lemma AllHeard(play: Play, plan: Plan, i: nat, j: nat, g: Progress, k: Progress, p: Peer, q: Peer, m: Message)
    requires plan.Fits(play) && i < play.sys.n && j < play.sys.n && IsPeer(play, i, g, p) && IsPeer(play, j, k, q)
    requires g.echos == plan.Target(play, i) && g.readys == Validators(play.sys.n) && (k.echoSent ==> j in plan.some)
    requires HasSent(q.history, i, m)
    ensures (j, m) in p.history.heard
  {
    hide Lawful, CollisionFree, IsConfig, StateOf, IsDecided, Play.Root, Play.ProofFor, SentBy;
    SentIs(play, j, k, i, m);
    assert IsBelow(j, play.sys.n);
    assert j in g.readys;
    assert k.echoSent ==> j in g.echos;
  }

  lemma SentIs(play: Play, id: nat, g: Progress, to: nat, m: Message)
    requires |play.leaves| == play.sys.n > id
    requires (All, m) in SentBy(play, id, g) || (Node(to), m) in SentBy(play, id, g)
    ensures (m == Echo(play.ProofFor(id)) && g.echoSent) || m == Ready(play.Root())
  {
    hide Play.Root, Play.ProofFor;
  }

  /** If some of the leaves do not decode, and with some more they do, then these make a run at
      the end of which one correct node has an output, and another has none. */
  lemma SplitRun(play: Play, plan: Plan, b: nat) returns (actions: seq<Action>, net: Network)
    requires plan.Fits(play) && b in play.sys.correct && b != plan.a && b != plan.c
    requires play.Decode(plan.some).None? && play.Decode(plan.some + plan.more).Some?
    ensures Reaches(play.sys, actions, net) && BroadcastSafety.Quiescent(play.sys, net)
    ensures plan.a in net && net[plan.a].history.outputs == [play.Decode(plan.some + plan.more).value]
    ensures b in net && net[b].history.outputs == []
    ensures forall id: nat :: id < play.sys.n ==> (id, Ready(play.Root())) in net[plan.a].history.heard
  {
    hide Lawful, CollisionFree, IsConfig, Reaches, IsPeer, BroadcastSafety.Quiescent, Play.Decode, Plan.Target;
    var w := AtTheEnd(play, plan);
    actions, net :| Reaches(play.sys, actions, net) && Fits(play, w, net);
    EndIsQuiescent(play, plan, w, net);
    assert IsPeer(play, plan.a, w[plan.a], net[plan.a]) && IsPeer(play, b, w[b], net[b]);
    OutputAtEnd(play, plan, plan.a, w[plan.a], net[plan.a]);
    OutputAtEnd(play, plan, b, w[b], net[b]);
    Targets(play, plan, b);
  }

  lemma Targets(play: Play, plan: Plan, b: nat)
    requires b != plan.a && b != plan.c
    ensures plan.Target(play, plan.a) == plan.some + plan.more && plan.Target(play, b) == plan.some
  {
  }

  lemma OutputAtEnd(play: Play, plan: Plan, i: nat, g: Progress, p: Peer)
    requires plan.Fits(play) && i < play.sys.n && IsPeer(play, i, g, p)
    requires g.echos == plan.Target(play, i) && g.readys == Validators(play.sys.n)
    ensures var d := play.Decode(plan.Target(play, i));
            p.history.outputs == if d.Some? then [d.value] else []
    ensures forall id: nat :: id < play.sys.n ==> (id, Ready(play.Root())) in p.history.heard
  {
    hide Lawful, CollisionFree, StateOf, SentBy, Play.Decode, Play.Root, Play.ProofFor;
    ValidatorsSize(play.sys.n);
    EnoughMoreThanOne(play.sys.n);
    SubsetSize(plan.some, g.echos);
    forall id: nat | id < play.sys.n ensures (id, Ready(play.Root())) in p.history.heard {
      assert IsBelow(id, play.sys.n);
      assert id in g.readys;
    }
  }
}
