/** How a payload becomes shards, and how shards become a payload again.

    The parity code itself is a parameter with a stated law; without parity shards it
    is concrete. */
module ErasureCoding {
  import opened Options
  import opened Merkle

  const TWO32: nat := 0x1_0000_0000

  datatype Coding =
    | ReedSolomon(
        dataShards: nat,
        parityShards: nat,
        parity: seq<Bytes> -> seq<Bytes>,
        rebuild: seq<Option<Bytes>> -> Option<seq<Bytes>>)
    | Trivial(dataShards: nat)
  {
    function ParityShardCount(): nat {
      if Trivial? then 0 else parityShards
    }

    function ParityOf(data: seq<Bytes>): seq<Bytes> {
      if Trivial? then [] else parity(data)
    }

    /** Overwrites the parity shards. */
    function Encode(shards: seq<Bytes>): seq<Bytes>
      requires |shards| >= dataShards
    {
      if Trivial? then shards else shards[..dataShards] + parity(shards[..dataShards])
    }

    /** Fills in the missing shards, if there are enough. */
    function Reconstruct(shards: seq<Option<Bytes>>): Option<seq<Bytes>> {
      if ReedSolomon? then rebuild(shards)
      else if forall i :: 0 <= i < |shards| ==> shards[i].Some? then
        Some(seq(|shards|, i requires 0 <= i < |shards| && shards[i].Some? => shards[i].value))
      else None
    }

    function Codeword(data: seq<Bytes>): seq<Bytes> {
      data + ParityOf(data)
    }
  }

  ghost predicate Uniform(shards: seq<Bytes>, len: nat) {
    forall i :: 0 <= i < |shards| ==> |shards[i]| == len
  }

  /** The shards that are there are those of `word`. */
  ghost predicate Agrees(shards: seq<Option<Bytes>>, word: seq<Bytes>) {
    && |shards| == |word|
    && forall i :: 0 <= i < |shards| && shards[i].Some? ==> shards[i].value == word[i]
  }

  function Present(shards: seq<Option<Bytes>>): set<nat> {
    set i: nat | i < |shards| && shards[i].Some?
  }

  /** `word` is the encoding of equally long, nonempty data shards. */
  ghost predicate IsCodeword(c: Coding, word: seq<Bytes>) {
    exists data: seq<Bytes>, len: nat :: EncodesTo(c, data, len, word)
  }

  ghost predicate EncodesTo(c: Coding, data: seq<Bytes>, len: nat, word: seq<Bytes>) {
    |data| == c.dataShards && len > 0 && Uniform(data, len) && word == c.Codeword(data)
  }

  /** All shards are there. */
  function Whole(word: seq<Bytes>): seq<Option<Bytes>> {
    seq(|word|, i requires 0 <= i < |word| => Some(word[i]))
  }

  /** The law of the code: it adds the right number of parity shards, and finds a codeword
      from as many of its shards as it has data. Shards that are there are kept. What comes
      out would be accepted as it is, and if there was no shard to spare, it is a codeword. */
  ghost predicate Lawful(c: Coding) {
    && c.dataShards > 0
    && (forall data, len: nat, word :: EncodesTo(c, data, len, word) ==>
          |word| == c.dataShards + c.ParityShardCount())
    && (forall word, shards ::
          IsCodeword(c, word) && Agrees(shards, word) && |Present(shards)| >= c.dataShards ==>
            c.Reconstruct(shards) == Some(word))
    && (forall shards :: c.Reconstruct(shards).Some? ==> IsCompletion(c, shards, c.Reconstruct(shards).value))
  }

  ghost predicate IsCompletion(c: Coding, shards: seq<Option<Bytes>>, word: seq<Bytes>) {
    && Agrees(shards, word)
    && c.Reconstruct(Whole(word)) == Some(word)
    && (c.ReedSolomon? && |Present(shards)| == c.dataShards ==> IsCodeword(c, word))
  }

  lemma {:induction false} FullSet(s: set<nat>, n: nat)
    requires (forall i :: i in s ==> i < n) && |s| >= n
    ensures forall i: nat :: i < n ==> i in s
  {
    if n > 0 {
      var t := s - {n - 1};
      FullSet(t, n - 1);
      if n - 1 !in s {
        Bounded(s, n - 1);
        assert false;
      }
    }
  }

  lemma {:induction false} Bounded(s: set<nat>, n: nat)
    requires forall i :: i in s ==> i < n
    ensures |s| <= n
  {
    if n > 0 {
      Bounded(s - {n - 1}, n - 1);
    } else {
      assert s == {};
    }
  }

  /** The code without parity satisfies the law. */
  lemma TrivialIsLawful(k: nat)
    requires k > 0
    ensures Lawful(Trivial(k))
  {
    var c := Trivial(k);
    forall word: seq<Bytes>, shards: seq<Option<Bytes>> |
      IsCodeword(c, word) && Agrees(shards, word) && |Present(shards)| >= c.dataShards
      ensures c.Reconstruct(shards) == Some(word)
    {
      var data, len: nat :| EncodesTo(c, data, len, word);
      FullSet(Present(shards), k);
      forall i: nat | i < |shards| ensures shards[i].Some? {
        assert i in Present(shards);
      }
      assert c.Reconstruct(shards).Some? && c.Reconstruct(shards).value == word;
    }
    forall shards | c.Reconstruct(shards).Some? ensures IsCompletion(c, shards, c.Reconstruct(shards).value) {
      assert Whole(c.Reconstruct(shards).value) == shards;
    }
  }

  // ----- Bytes -----

  /** The length as four big-endian bytes, as far as it fits. */
  function LengthPrefix(len: nat): (r: Bytes)
    ensures |r| == 4
  {
    [(len / 0x100_0000 % 0x100) as Byte, (len / 0x1_0000 % 0x100) as Byte,
     (len / 0x100 % 0x100) as Byte, (len % 0x100) as Byte]
  }

  function ReadLength(b: Bytes): nat
    requires |b| >= 4
  {
    b[0] as nat * 0x100_0000 + b[1] as nat * 0x1_0000 + b[2] as nat * 0x100 + b[3] as nat
  }

  lemma LengthRoundTrip(len: nat, rest: Bytes)
    ensures ReadLength(LengthPrefix(len) + rest) == len % TWO32
  {
    var a, b, c := len / 0x100, len / 0x1_0000, len / 0x100_0000;
    assert len == 0x100 * a + len % 0x100;
    assert b == a / 0x100 && a == 0x100 * b + a % 0x100;
    assert c == b / 0x100 && b == 0x100 * c + b % 0x100;
    assert c == 0x100 * (c / 0x100) + c % 0x100;
    assert len == TWO32 * (c / 0x100) + ReadLength(LengthPrefix(len) + rest);
  }

  function Zeros(n: nat): (r: Bytes)
    ensures |r| == n
  {
    seq(n, _ => 0 as Byte)
  }

  function Resize(b: Bytes, n: nat): (r: Bytes)
    requires |b| <= n
    ensures |r| == n
  {
    b + Zeros(n - |b|)
  }

  /** Divides `b` into `count` chunks of the same length. */
  function Chunks(b: Bytes, len: nat, count: nat): (r: seq<Bytes>)
    requires |b| == len * count
    ensures |r| == count
  {
    if count == 0 then []
    else
      ChunkArith(len, count);
      [b[..len]] + Chunks(b[len..], len, count - 1)
  }

  lemma ChunkArith(len: nat, count: nat)
    requires count > 0
    ensures len <= len * count && len * count - len == len * (count - 1)
  {
    assert len * count == len * (count - 1) + len;
    assert len * (count - 1) >= 0;
  }

  function Glue(shards: seq<Bytes>): Bytes {
    if shards == [] then [] else shards[0] + Glue(shards[1..])
  }

  lemma {:induction false} ChunksGlue(b: Bytes, len: nat, count: nat)
    requires |b| == len * count
    ensures Glue(Chunks(b, len, count)) == b
    ensures Uniform(Chunks(b, len, count), len)
    decreases count
  {
    if count > 0 {
      ChunkArith(len, count);
      ChunksGlue(b[len..], len, count - 1);
      assert Chunks(b, len, count)[1..] == Chunks(b[len..], len, count - 1);
    }
  }

  lemma {:induction false} ChunksPrefix(b: Bytes, len: nat, count: nat, k: nat)
    requires |b| == len * count && k <= count
    ensures len * k <= |b| && Chunks(b, len, count)[..k] == Chunks(b[..len * k], len, k)
    decreases count
  {
    ChunkPrefixArith(len, count, k);
    if k > 0 {
      ChunkArith(len, count);
      ChunkArith(len, k);
      ChunksPrefix(b[len..], len, count - 1, k - 1);
      assert b[..len * k][..len] == b[..len];
      assert b[..len * k][len..] == b[len..][..len * (k - 1)];
      assert Chunks(b, len, count)[..k] == [b[..len]] + Chunks(b[len..], len, count - 1)[..k - 1];
    } else {
      assert Chunks(b[..len * k], len, k) == [];
    }
  }

  lemma ChunkPrefixArith(len: nat, count: nat, k: nat)
    requires k <= count
    ensures len * k <= len * count
  {
    assert len * count == len * k + len * (count - k);
  }

  // ----- Payloads -----

  /** The least length for which the data shards can hold so many bytes. */
  function ShardLen(c: Coding, size: nat): (len: nat)
    requires c.dataShards > 0
    ensures size <= len * c.dataShards && (size > 0 ==> len > 0)
  {
    var len := (size + c.dataShards - 1) / c.dataShards;
    assert size + c.dataShards - 1 < c.dataShards * len + c.dataShards;
    len
  }

  function DataShards(c: Coding, value: Bytes): (r: seq<Bytes>)
    requires c.dataShards > 0
    ensures |r| == c.dataShards
  {
    var size := |value| + 4;
    var len := ShardLen(c, size);
    Chunks(Resize(LengthPrefix(|value|) + value, len * c.dataShards), len, c.dataShards)
  }

  /** All shards of a payload. */
  function Shards(c: Coding, value: Bytes): seq<Bytes>
    requires c.dataShards > 0
  {
    c.Codeword(DataShards(c, value))
  }

  /** What glued data shards stand for: the payload up to the size it begins with. */
  function PayloadOf(bytes: Bytes): Option<Bytes> {
    if |bytes| < 4 then None
    else
      var len := ReadLength(bytes);
      Some(if len <= |bytes| - 4 then bytes[4..4 + len] else bytes[4..])
  }

  function Payload(c: Coding, shards: seq<Bytes>): Option<Bytes>
    requires |shards| >= c.dataShards
  {
    PayloadOf(Glue(shards[..c.dataShards]))
  }

  /** Fills in the missing shards, checks that they have the given root, and decodes. */
  function DecodeFromShards(c: Coding, h: Hash, shards: seq<Option<Bytes>>, root: Digest): Option<Bytes> {
    var all := c.Reconstruct(shards);
    if all.None? || |all.value| == 0 || |all.value| < c.dataShards then None
    else if Root(h, Leaves(h, all.value)) != root then None
    else Payload(c, all.value)
  }

  lemma ShardsAreCodeword(c: Coding, value: Bytes)
    requires Lawful(c)
    ensures IsCodeword(c, Shards(c, value))
    ensures |Shards(c, value)| == c.dataShards + c.ParityShardCount()
  {
    var len := ShardLen(c, |value| + 4);
    ChunksGlue(Resize(LengthPrefix(|value|) + value, len * c.dataShards), len, c.dataShards);
    assert EncodesTo(c, DataShards(c, value), len, Shards(c, value));
  }

  /** The payload as far as the 32 bits for its size reach. */
  function Truncated(value: Bytes): Bytes {
    value[..|value| % TWO32]
  }

  lemma PayloadOfPrefixed(value: Bytes, zeros: Bytes)
    ensures PayloadOf(LengthPrefix(|value|) + (value + zeros)) == Some(Truncated(value))
  {
    hide LengthPrefix, ReadLength;
    var bytes := LengthPrefix(|value|) + (value + zeros);
    LengthRoundTrip(|value|, value + zeros);
    var n := |value| % TWO32;
    assert n <= |value|;
    assert bytes[4..4 + n] == value[..n];
  }

  /** Decoding undoes encoding, up to the 32 bits in which the size is stored. */
  lemma PayloadOfShards(c: Coding, value: Bytes)
    requires c.dataShards > 0
    ensures Payload(c, Shards(c, value)) == Some(Truncated(value))
  {
    hide LengthPrefix, PayloadOf, ShardLen;
    var len := ShardLen(c, |value| + 4);
    var bytes := Resize(LengthPrefix(|value|) + value, len * c.dataShards);
    ChunksGlue(bytes, len, c.dataShards);
    assert Shards(c, value)[..c.dataShards] == DataShards(c, value);
    var zeros := Zeros(len * c.dataShards - (|value| + 4));
    assert bytes == LengthPrefix(|value|) + (value + zeros);
    PayloadOfPrefixed(value, zeros);
  }

  /** The payload comes back exactly if its size fits into 32 bits. */
  lemma PayloadRoundTrip(c: Coding, value: Bytes)
    requires c.dataShards > 0
    ensures Payload(c, Shards(c, value)) == Some(value) <==> |value| < TWO32
  {
    hide Payload, Shards;
    PayloadOfShards(c, value);
    if |value| >= TWO32 {
      assert |Truncated(value)| < TWO32;
    } else {
      assert value[..|value|] == value;
    }
  }

  /** Any `dataShards` of the shards of a payload are enough to get it back. */
  lemma DecodeRoundTrip(c: Coding, h: Hash, value: Bytes, shards: seq<Option<Bytes>>)
    requires Lawful(c) && |value| < TWO32
    requires Agrees(shards, Shards(c, value)) && |Present(shards)| >= c.dataShards
    ensures DecodeFromShards(c, h, shards, Root(h, Leaves(h, Shards(c, value)))) == Some(value)
  {
    ShardsAreCodeword(c, value);
    PayloadRoundTrip(c, value);
  }
}
