/** A concrete code with parity, for four nodes: two data shards and two parity shards, any two
    of which are enough. It shows that the law of the code can be met, and that broadcasts of
    leaves that are not a codeword can end differently for different nodes. */
module SmallCode {
  import opened Options
  import opened Quorums
  import opened Merkle
  import opened ErasureCoding
  import opened ShardSubsets
  import BroadcastNetwork

  // ----- One byte of each shard -----

  type Digit = d: nat | d < 16

  /** Digits are added modulo 16. */
  function Sum(x: Digit, y: Digit): Digit {
    if x + y < 16 then x + y else x + y - 16
  }

  function Difference(x: Digit, y: Digit): Digit {
    if x >= y then x - y else x + 16 - y
  }

  /** A byte is a pair of digits, which are added separately. */
  function High(b: Byte): Digit {
    (b as int / 16) as Digit
  }

  function Low(b: Byte): Digit {
    (b as int % 16) as Digit
  }

  function Pair(high: Digit, low: Digit): (b: Byte)
    ensures High(b) == high && Low(b) == low
  {
    (high * 16 + low) as Byte
  }

  function Plus(a: Byte, b: Byte): Byte {
    Pair(Sum(High(a), High(b)), Sum(Low(a), Low(b)))
  }

  function Minus(a: Byte, b: Byte): Byte {
    Pair(Difference(High(a), High(b)), Difference(Low(a), Low(b)))
  }

  /** A linear map. It can be undone, and so can the one that takes `b` away from its result. */
  function Twist(b: Byte): Byte {
    Pair(Low(b), Sum(High(b), Low(b)))
  }

  function Untwist(b: Byte): Byte {
    Pair(Difference(Low(b), High(b)), High(b))
  }

  function UntwistLess(b: Byte): Byte {
    Pair(Low(b), Sum(High(b), Low(b)))
  }

  /** The byte of shard `i` for the data bytes `a` and `b`. */
  function At(i: nat, a: Byte, b: Byte): Byte {
    if i == 0 then a else if i == 1 then b else if i == 2 then Plus(a, b) else Plus(a, Twist(b))
  }

  /** The data bytes, from those of shards `i` and `j`. */
  function Solve(i: nat, j: nat, x: Byte, y: Byte): (Byte, Byte) {
    if i == 0 then
      (x, if j == 1 then y else if j == 2 then Minus(y, x) else Untwist(Minus(y, x)))
    else if i == 1 then
      (if j == 2 then Minus(y, x) else Minus(y, Twist(x)), x)
    else
      var b := UntwistLess(Minus(y, x));
      (Minus(x, b), b)
  }

  lemma SameDigits(a: Byte, b: Byte)
    requires High(a) == High(b) && Low(a) == Low(b)
    ensures a == b
  {
  }

  lemma PlusMinus(a: Byte, b: Byte)
    ensures Minus(Plus(a, b), a) == b && Minus(Plus(a, b), b) == a
    ensures Plus(Minus(a, b), b) == a && Plus(b, Minus(a, b)) == a
  {
    hide High, Low, Pair;
    SameDigits(Minus(Plus(a, b), a), b);
    SameDigits(Minus(Plus(a, b), b), a);
    SameDigits(Plus(Minus(a, b), b), a);
    SameDigits(Plus(b, Minus(a, b)), a);
  }

  lemma Twists(b: Byte)
    ensures Untwist(Twist(b)) == b && Twist(Untwist(b)) == b
    ensures UntwistLess(Minus(Twist(b), b)) == b
    ensures Minus(Twist(UntwistLess(b)), UntwistLess(b)) == b
  {
    hide High, Low, Pair;
    SameDigits(Untwist(Twist(b)), b);
    SameDigits(Twist(Untwist(b)), b);
    SameDigits(UntwistLess(Minus(Twist(b), b)), b);
    SameDigits(Minus(Twist(UntwistLess(b)), UntwistLess(b)), b);
  }

  lemma SumDifference(x: Digit, y: Digit, z: Digit)
    ensures Difference(Sum(x, y), Sum(x, z)) == Difference(y, z)
    ensures Sum(Difference(x, z), y) == Sum(x, Difference(y, z))
  {
  }

  /** The first summand does not matter for the difference. */
  lemma SameSummand(a: Byte, b: Byte, c: Byte)
    ensures Minus(Plus(a, b), Plus(a, c)) == Minus(b, c)
    ensures Plus(Minus(a, c), b) == Plus(a, Minus(b, c))
  {
    hide High, Low, Pair, Sum, Difference;
    SumDifference(High(a), High(b), High(c));
    SumDifference(Low(a), Low(b), Low(c));
  }

  lemma SolveAt(i: nat, j: nat, a: Byte, b: Byte)
    requires i < j < 4
    ensures Solve(i, j, At(i, a, b), At(j, a, b)) == (a, b)
  {
    hide Plus, Minus, Twist, Untwist, UntwistLess;
    PlusMinus(a, b);
    PlusMinus(a, Twist(b));
    Twists(b);
    SameSummand(a, Twist(b), b);
  }

  lemma AtSolve(i: nat, j: nat, x: Byte, y: Byte)
    requires i < j < 4
    ensures var (a, b) := Solve(i, j, x, y); At(i, a, b) == x && At(j, a, b) == y
  {
    hide Plus, Minus, Twist, Untwist, UntwistLess;
    PlusMinus(y, x);
    PlusMinus(y, Twist(x));
    var d := Minus(y, x);
    Twists(d);
    PlusMinus(x, UntwistLess(d));
    SameSummand(x, Twist(UntwistLess(d)), UntwistLess(d));
  }

  // ----- Shards -----

  /** Shard `i` for these data shards. */
  function Shard(i: nat, a: Bytes, b: Bytes): (r: Bytes)
    requires |a| == |b|
    ensures |r| == |a|
  {
    seq(|a|, k requires 0 <= k < |a| => At(i, a[k], b[k]))
  }

  function SolveShards(i: nat, j: nat, x: Bytes, y: Bytes): (r: (Bytes, Bytes))
    requires |x| == |y|
    ensures |r.0| == |r.1| == |x|
  {
    (seq(|x|, k requires 0 <= k < |x| => Solve(i, j, x[k], y[k]).0),
     seq(|x|, k requires 0 <= k < |x| => Solve(i, j, x[k], y[k]).1))
  }

  lemma SolveShard(i: nat, j: nat, a: Bytes, b: Bytes)
    requires i < j < 4 && |a| == |b|
    ensures SolveShards(i, j, Shard(i, a, b), Shard(j, a, b)) == (a, b)
  {
    hide At, Solve;
    var r := SolveShards(i, j, Shard(i, a, b), Shard(j, a, b));
    forall k | 0 <= k < |a| ensures r.0[k] == a[k] && r.1[k] == b[k] {
      SolveAt(i, j, a[k], b[k]);
    }
    assert r.0 == a && r.1 == b;
  }

  lemma ShardSolved(i: nat, j: nat, x: Bytes, y: Bytes)
    requires i < j < 4 && |x| == |y|
    ensures var (a, b) := SolveShards(i, j, x, y); Shard(i, a, b) == x && Shard(j, a, b) == y
  {
    hide At, Solve;
    var (a, b) := SolveShards(i, j, x, y);
    forall k | 0 <= k < |x| ensures Shard(i, a, b)[k] == x[k] && Shard(j, a, b)[k] == y[k] {
      AtSolve(i, j, x[k], y[k]);
    }
    assert Shard(i, a, b) == x && Shard(j, a, b) == y;
  }

  lemma DataShard(a: Bytes, b: Bytes)
    requires |a| == |b|
    ensures Shard(0, a, b) == a && Shard(1, a, b) == b
  {
  }

  // ----- The code -----

  function Parity(data: seq<Bytes>): seq<Bytes> {
    if |data| == 2 && |data[0]| == |data[1]| then [Shard(2, data[0], data[1]), Shard(3, data[0], data[1])]
    else [[], []]
  }

  /** The first shard from here on that is there, or the last one. */
  function NextPresent(shards: seq<Option<Bytes>>, from: nat): (i: nat)
    requires |shards| == 4 && from < 4
    ensures from <= i < 4 && (shards[i].Some? || i == 3)
    ensures forall k :: from <= k < i ==> shards[k].None?
    decreases 4 - from
  {
    if from == 3 || shards[from].Some? then from else NextPresent(shards, from + 1)
  }

  /** Shards of this length or nothing. */
  predicate HaveLength(shards: seq<Option<Bytes>>, len: nat) {
    len > 0 && forall i :: 0 <= i < |shards| ==> shards[i].None? || |shards[i].value| == len
  }

  function Fill(shards: seq<Option<Bytes>>, a: Bytes, b: Bytes): seq<Bytes>
    requires |a| == |b|
  {
    seq(|shards|, i requires 0 <= i < |shards| => if shards[i].Some? then shards[i].value else Shard(i, a, b))
  }

  function Rebuild(shards: seq<Option<Bytes>>): Option<seq<Bytes>> {
    if |shards| != 4 then None
    else
      var i := NextPresent(shards, 0);
      if i == 3 then None
      else
        var j := NextPresent(shards, i + 1);
        if shards[j].None? || !HaveLength(shards, |shards[i].value|) then None
        else
          var (a, b) := SolveShards(i, j, shards[i].value, shards[j].value);
          Some(Fill(shards, a, b))
  }

  function SmallCoding(): Coding {
    ReedSolomon(2, 2, Parity, Rebuild)
  }

  // ----- Its law -----

  /** The encoding of two data shards. */
  function WordOf(a: Bytes, b: Bytes): (word: seq<Bytes>)
    requires |a| == |b|
    ensures |word| == 4
  {
    seq(4, i requires 0 <= i < 4 => Shard(i, a, b))
  }

  lemma WordIsCodeword(a: Bytes, b: Bytes)
    requires |a| == |b| > 0
    ensures SmallCoding().Codeword([a, b]) == WordOf(a, b)
    ensures IsCodeword(SmallCoding(), WordOf(a, b))
  {
    hide Shard;
    DataShard(a, b);
    assert SmallCoding().Codeword([a, b]) == WordOf(a, b);
    assert EncodesTo(SmallCoding(), [a, b], |a|, WordOf(a, b));
  }

  lemma CodewordIsWord(word: seq<Bytes>) returns (a: Bytes, b: Bytes)
    requires IsCodeword(SmallCoding(), word)
    ensures |a| == |b| > 0 && word == WordOf(a, b)
  {
    hide Shard;
    var data: seq<Bytes>, len: nat :| EncodesTo(SmallCoding(), data, len, word);
    a, b := data[0], data[1];
    assert data == [a, b];
    WordIsCodeword(a, b);
  }

  /** Two of the shards are there, if so many are. */
  lemma TwoPresent(shards: seq<Option<Bytes>>)
    requires |shards| == 4 && |Present(shards)| >= 2
    ensures var i := NextPresent(shards, 0);
            i < 3 && shards[i].Some? && shards[NextPresent(shards, i + 1)].Some?
  {
    var i := NextPresent(shards, 0);
    var first := {i};
    if i == 3 || shards[NextPresent(shards, i + 1)].None? {
      assert Present(shards) <= first;
      SubsetSize(Present(shards), first);
      assert false;
    }
  }

  lemma OnlyPresent(shards: seq<Option<Bytes>>, i: nat, j: nat)
    requires |shards| == 4 && |Present(shards)| == 2 && i < j < 4 && shards[i].Some? && shards[j].Some?
    ensures forall k :: 0 <= k < 4 && shards[k].Some? ==> k == i || k == j
  {
    forall k | 0 <= k < 4 && shards[k].Some? ensures k == i || k == j {
      if k != i && k != j {
        SubsetSize({i, j, k}, Present(shards));
        assert false;
      }
    }
  }

  lemma RebuildsWord(word: seq<Bytes>, shards: seq<Option<Bytes>>)
    requires IsCodeword(SmallCoding(), word) && Agrees(shards, word) && |Present(shards)| >= 2
    ensures Rebuild(shards) == Some(word)
  {
    hide Shard, SolveShards;
    var a, b := CodewordIsWord(word);
    TwoPresent(shards);
    var i := NextPresent(shards, 0);
    var j := NextPresent(shards, i + 1);
    SolveShard(i, j, a, b);
    assert HaveLength(shards, |shards[i].value|);
    assert Fill(shards, a, b) == word;
  }

  lemma RebuildsAll(word: seq<Bytes>, len: nat)
    requires |word| == 4 && len > 0 && Uniform(word, len)
    ensures Rebuild(Whole(word)) == Some(word)
  {
    hide Shard, SolveShards;
    var shards := Whole(word);
    assert NextPresent(shards, 0) == 0 && NextPresent(shards, 1) == 1;
    assert HaveLength(shards, len);
    var (a, b) := SolveShards(0, 1, word[0], word[1]);
    assert Fill(shards, a, b) == word;
  }

  lemma RebuiltIsCompletion(shards: seq<Option<Bytes>>)
    requires Rebuild(shards).Some?
    ensures IsCompletion(SmallCoding(), shards, Rebuild(shards).value)
  {
    hide Shard, SolveShards, IsCodeword;
    var word := Rebuild(shards).value;
    var i := NextPresent(shards, 0);
    var j := NextPresent(shards, i + 1);
    var x, y := shards[i].value, shards[j].value;
    var (a, b) := SolveShards(i, j, x, y);
    assert Uniform(word, |x|);
    RebuildsAll(word, |x|);
    if |Present(shards)| == 2 {
      OnlyPresent(shards, i, j);
      ShardSolved(i, j, x, y);
      WordIsCodeword(a, b);
      assert word == WordOf(a, b);
    }
  }

  /** The code meets the law that the broadcast needs. */
  lemma SmallCodingIsLawful()
    ensures Lawful(SmallCoding())
  {
    hide Parity, Rebuild, IsCodeword, Shard;
    var c := SmallCoding();
    forall data: seq<Bytes>, len: nat, word: seq<Bytes> | EncodesTo(c, data, len, word) ensures |word| == 4 {
      ParitySize(data);
    }
    forall word: seq<Bytes>, shards: seq<Option<Bytes>> |
      IsCodeword(c, word) && Agrees(shards, word) && |Present(shards)| >= c.dataShards
      ensures c.Reconstruct(shards) == Some(word)
    {
      RebuildsWord(word, shards);
    }
    forall shards: seq<Option<Bytes>> | c.Reconstruct(shards).Some?
      ensures IsCompletion(c, shards, c.Reconstruct(shards).value)
    {
      RebuiltIsCompletion(shards);
    }
  }

  lemma ParitySize(data: seq<Bytes>)
    ensures |Parity(data)| == 2
  {
  }

  // ----- Four nodes -----

  /** With this code there are networks of four nodes, and any one of them may be faulty. */
  lemma FourNodes(faulty: set<nat>, proposerId: nat) returns (sys: BroadcastNetwork.System)
    requires faulty <= Validators(4) && |faulty| <= 1
    ensures sys.Valid() && sys.n == 4 && sys.faulty == faulty && sys.coding == SmallCoding()
    ensures BroadcastNetwork.Reaches(sys, [], BroadcastNetwork.Initial(sys))
  {
    hide Lawful;
    SmallCodingIsLawful();
    sys := BroadcastNetwork.SystemsExist(4, faulty, proposerId, SmallCoding());
  }

  /** Leaves that are not a codeword. */
  function Misfit(): seq<Bytes> {
    [[0, 0], [0, 0], [0, 0], [1, 0]]
  }

  /** A node that has all of these leaves outputs the empty payload, and one that has all but
      the last reports the proposer: `N - f` leaves need not decode alike. */
  lemma MisfitsDiffer(h: Hash)
    requires CollisionFree(h)
    ensures IsSize(SmallCoding(), Misfit()) && !IsCodeword(SmallCoding(), Misfit())
    ensures DecodeFrom(SmallCoding(), h, Misfit(), {0, 1, 2, 3}) == Some([])
    ensures DecodeFrom(SmallCoding(), h, Misfit(), {0, 1, 2}) == None
    ensures !DecodeAlike(SmallCoding(), h, Misfit())
  {
    hide Lawful, CollisionFree, DecodeFrom, Shard, Root, Leaves, IsCodeword, Parity, Rebuild;
    SmallCodingIsLawful();
    var c, leaves := SmallCoding(), Misfit();
    FourBelow();
    RebuildsAll(leaves, 2);
    WholeDecodes(c, h, leaves);
    MisfitPayload();
    ThreeDecodeToNone(h);
    assert AreEnough(c, leaves, {0, 1, 2}) && AreEnough(c, leaves, {0, 1, 2, 3});
    DecodeAlikeIff(c, h, leaves);
  }

  lemma FourBelow()
    ensures Validators(4) == {0, 1, 2, 3}
  {
    assert IsBelow(0, 4) && IsBelow(1, 4) && IsBelow(2, 4) && IsBelow(3, 4);
  }

  lemma MisfitPayload()
    ensures Payload(SmallCoding(), Misfit()) == Some([])
  {
    var glued: Bytes := [0, 0, 0, 0];
    assert Misfit()[..2] == [[0, 0], [0, 0]];
    assert [[0, 0], [0, 0]][1..] == [[0, 0]] && [[0, 0]][1..] == [];
    assert Glue(Misfit()[..2]) == glued;
    assert glued[4..4] == [];
  }

  lemma ZeroWord()
    ensures At(3, 0, 0) == 0
  {
    hide High, Low, Pair;
    SameDigits(Twist(0), 0) by {
      ZeroDigits();
    }
    SameDigits(Plus(0, 0), 0) by {
      ZeroDigits();
    }
  }

  lemma ZeroDigits()
    ensures High(0) == 0 && Low(0) == 0
  {
  }

  /** From the first two shards, the last one would be all zeros. */
  lemma MisfitRebuilt()
    ensures var word := Rebuild(Those(Misfit(), {0, 1, 2})); word.Some? ==> word.value != Misfit()
  {
    hide At, Parity;
    ZeroWord();
    var shards := Those(Misfit(), {0, 1, 2});
    assert NextPresent(shards, 0) == 0 && NextPresent(shards, 1) == 1;
    var (a, b) := SolveShards(0, 1, shards[0].value, shards[1].value);
    assert a == [0, 0] && b == [0, 0];
    assert Shard(3, a, b)[0] == 0;
    var word := Fill(shards, a, b);
    assert shards[3].None? && word[3] == Shard(3, a, b);
    assert Misfit()[3][0] == 1;
    assert Rebuild(shards).Some? ==> Rebuild(shards).value == word;
  }

  lemma ThreeDecodeToNone(h: Hash)
    requires CollisionFree(h)
    ensures DecodeFrom(SmallCoding(), h, Misfit(), {0, 1, 2}) == None
  {
    hide DecodeFrom, Lawful, CollisionFree, Rebuild, Parity, Those;
    SmallCodingIsLawful();
    FourBelow();
    MisfitRebuilt();
    if DecodeFrom(SmallCoding(), h, Misfit(), {0, 1, 2}).Some? {
      DecodedIsLeaves(SmallCoding(), h, Misfit(), {0, 1, 2});
    }
  }
}
