/** Merkle trees over any number of leaves, with proofs for single leaves.

    A level of odd length hands its last digest up unchanged. */
module Merkle {
  import opened Options

  newtype Byte = b: int | 0 <= b < 256

  type Bytes = seq<Byte>

  /** A digest is only ever compared and hashed again. */
  datatype Digest = Digest(bits: nat)

  /** The hash of a leaf value, and the hash of two concatenated digests. Nothing says
      that a leaf cannot have the hash of a pair: both use the same hash function. */
  datatype Hash = Hash(leaf: Bytes -> Digest, pair: (Digest, Digest) -> Digest)

  ghost predicate CollisionFree(h: Hash) {
    && (forall a, b :: h.leaf(a) == h.leaf(b) ==> a == b)
    && (forall a, b, c, d :: h.pair(a, b) == h.pair(c, d) ==> a == c && b == d)
  }

  // ----- Trees as functions of their leaves -----

  function Leaves(h: Hash, values: seq<Bytes>): (r: seq<Digest>)
    ensures |r| == |values|
  {
    seq(|values|, i requires 0 <= i < |values| => h.leaf(values[i]))
  }

  function NextSize(n: nat): nat {
    (n + 1) / 2
  }

  /** The hash of the chunk number `i` of one or two digests. */
  function Chunk(h: Hash, level: seq<Digest>, i: nat): Digest
    requires 2 * i < |level|
  {
    if 2 * i + 1 < |level| then h.pair(level[2 * i], level[2 * i + 1]) else level[2 * i]
  }

  function NextLevel(h: Hash, level: seq<Digest>): (r: seq<Digest>)
    ensures |r| == NextSize(|level|)
  {
    seq(NextSize(|level|), i requires 0 <= i < NextSize(|level|) => Chunk(h, level, i))
  }

  function Root(h: Hash, level: seq<Digest>): Digest
    requires |level| > 0
    decreases |level|
  {
    if |level| == 1 then level[0] else Root(h, NextLevel(h, level))
  }

  /** All levels above and including `level`, without the root. */
  function Levels(h: Hash, level: seq<Digest>): seq<seq<Digest>>
    requires |level| > 0
    decreases |level|
  {
    if |level| == 1 then [] else [level] + Levels(h, NextLevel(h, level))
  }

  /** The other index in the same chunk. */
  function Sibling(i: nat): nat {
    if i % 2 == 0 then i + 1 else i - 1
  }

  /** The digests that lead from `level[i]` to the root. */
  function Branch(h: Hash, level: seq<Digest>, i: nat): seq<Digest>
    requires i < |level|
    decreases |level|
  {
    if |level| == 1 then []
    else
      (if Sibling(i) < |level| then [level[Sibling(i)]] else [])
      + Branch(h, NextLevel(h, level), i / 2)
  }

  datatype Proof = Proof(value: Bytes, index: nat, digests: seq<Digest>, rootHash: Digest)

  function ProofOf(h: Hash, values: seq<Bytes>, i: nat): Proof
    requires i < |values|
  {
    Proof(values[i], i, Branch(h, Leaves(h, values), i), Root(h, Leaves(h, values)))
  }

  /** The digest that `digests` lead to, from `digest` at index `i` of `n`, if their
      number is right. */
  function Climb(h: Hash, digest: Digest, i: nat, n: nat, digests: seq<Digest>): Option<Digest>
    decreases n
  {
    if n <= 1 then
      if digests == [] then Some(digest) else None
    else if Sibling(i) < n then
      if digests == [] then None
      else
        var parent := if i % 2 == 1 then h.pair(digests[0], digest) else h.pair(digest, digests[0]);
        Climb(h, parent, i / 2, NextSize(n), digests[1..])
    else
      Climb(h, digest, i / 2, NextSize(n), digests)
  }

  predicate IsValid(h: Hash, p: Proof, n: nat) {
    Climb(h, h.leaf(p.value), p.index, n, p.digests) == Some(p.rootHash)
  }

  // ----- Completeness and binding -----

  lemma {:induction false} BranchClimbs(h: Hash, level: seq<Digest>, i: nat)
    requires i < |level|
    ensures Climb(h, level[i], i, |level|, Branch(h, level, i)) == Some(Root(h, level))
    decreases |level|
  {
    if |level| > 1 {
      var next := NextLevel(h, level);
      BranchClimbs(h, next, i / 2);
      assert next[i / 2] == Chunk(h, level, i / 2);
      var rest := Branch(h, next, i / 2);
      if Sibling(i) < |level| {
        assert Branch(h, level, i)[1..] == rest;
      } else {
        assert Branch(h, level, i) == rest;
      }
    }
  }

  /** The proof of every leaf is valid. */
  lemma ProofsAreValid(h: Hash, values: seq<Bytes>, i: nat)
    requires i < |values|
    ensures IsValid(h, ProofOf(h, values, i), |values|)
  {
    BranchClimbs(h, Leaves(h, values), i);
  }

  lemma {:induction false} ClimbBinds(h: Hash, level: seq<Digest>, digest: Digest, i: nat, digests: seq<Digest>)
    requires CollisionFree(h) && i < |level|
    requires Climb(h, digest, i, |level|, digests) == Some(Root(h, level))
    ensures digest == level[i] && digests == Branch(h, level, i)
    decreases |level|
  {
    hide CollisionFree;
    if |level| > 1 {
      var next := NextLevel(h, level);
      assert next[i / 2] == Chunk(h, level, i / 2);
      if Sibling(i) < |level| {
        var parent := if i % 2 == 1 then h.pair(digests[0], digest) else h.pair(digest, digests[0]);
        ClimbBinds(h, next, parent, i / 2, digests[1..]);
        ChunkBinds(h, level, digest, i, digests[0]);
        assert digests == [digests[0]] + digests[1..];
      } else {
        ClimbBinds(h, next, digest, i / 2, digests);
        assert 2 * (i / 2) == i;
        assert digests == [] + digests;
      }
    }
  }

  lemma ChunkBinds(h: Hash, level: seq<Digest>, digest: Digest, i: nat, sibling: Digest)
    requires CollisionFree(h) && i < |level| && Sibling(i) < |level|
    requires (if i % 2 == 1 then h.pair(sibling, digest) else h.pair(digest, sibling)) == Chunk(h, level, i / 2)
    ensures digest == level[i] && sibling == level[Sibling(i)]
  {
    if i % 2 == 1 {
      assert 2 * (i / 2) == i - 1;
    } else {
      assert 2 * (i / 2) == i;
    }
  }

  /** A valid proof for a root carries the leaf at its index: it is the proof of that leaf. */
  lemma ProofsBind(h: Hash, values: seq<Bytes>, p: Proof)
    requires CollisionFree(h) && p.index < |values|
    requires IsValid(h, p, |values|) && p.rootHash == Root(h, Leaves(h, values))
    ensures p == ProofOf(h, values, p.index)
  {
    ClimbBinds(h, Leaves(h, values), h.leaf(p.value), p.index, p.digests);
  }

  lemma {:induction false} RootBinds(h: Hash, a: seq<Digest>, b: seq<Digest>)
    requires CollisionFree(h) && 0 < |a| == |b|
    requires Root(h, a) == Root(h, b)
    ensures a == b
    decreases |a|
  {
    if |a| > 1 {
      var a1, b1 := NextLevel(h, a), NextLevel(h, b);
      RootBinds(h, a1, b1);
      forall i | 0 <= i < |a| ensures a[i] == b[i] {
        assert a1[i / 2] == Chunk(h, a, i / 2) && b1[i / 2] == Chunk(h, b, i / 2);
      }
    }
  }

  /** Trees with equally many leaves and equal roots have equal leaves. */
  lemma RootsDetermineValues(h: Hash, a: seq<Bytes>, b: seq<Bytes>)
    requires CollisionFree(h) && 0 < |a| == |b|
    requires Root(h, Leaves(h, a)) == Root(h, Leaves(h, b))
    ensures a == b
  {
    RootBinds(h, Leaves(h, a), Leaves(h, b));
    forall i | 0 <= i < |a| ensures a[i] == b[i] {
      assert Leaves(h, a)[i] == Leaves(h, b)[i];
    }
  }

  // ----- The tree as it is built -----

  datatype MerkleTree = MerkleTree(levels: seq<seq<Digest>>, values: seq<Bytes>, rootHash: Digest)

  ghost predicate IsTreeOf(h: Hash, t: MerkleTree, values: seq<Bytes>) {
    && |values| > 0
    && t == MerkleTree(Levels(h, Leaves(h, values)), values, Root(h, Leaves(h, values)))
  }

  method FromVec(h: Hash, values: seq<Bytes>) returns (t: MerkleTree)
    requires |values| > 0
    ensures IsTreeOf(h, t, values)
  {
    var levels: seq<seq<Digest>> := [];
    var curLvl := Leaves(h, values);
    while |curLvl| > 1
      invariant |curLvl| > 0
      invariant Root(h, curLvl) == Root(h, Leaves(h, values))
      invariant levels + Levels(h, curLvl) == Levels(h, Leaves(h, values))
      decreases |curLvl|
    {
      var nextLvl := NextLevel(h, curLvl);
      levels := levels + [curLvl];
      curLvl := nextLvl;
    }
    assert levels + [] == levels;
    t := MerkleTree(levels, values, curLvl[0]);
  }

  /** Collects the siblings on the way from this leaf to the root. */
  method MakeProof(h: Hash, t: MerkleTree, index: nat) returns (p: Option<Proof>)
    requires IsTreeOf(h, t, t.values)
    ensures p == if index < |t.values| then Some(ProofOf(h, t.values, index)) else None
  {
    if index >= |t.values| {
      return None;
    }
    var lvlI: nat := index;
    var digests: seq<Digest> := [];
    ghost var level: seq<Digest> := Leaves(h, t.values);
    ghost var branch := Branch(h, level, index);
    var k := 0;
    while k < |t.levels|
      invariant k <= |t.levels| && lvlI < |level|
      invariant t.levels[k..] == Levels(h, level)
      invariant branch == digests + Branch(h, level, lvlI)
    {
      assert t.levels[k] == t.levels[k..][0] == level;
      assert t.levels[k + 1..] == t.levels[k..][1..] == Levels(h, NextLevel(h, level));
      var sibling := if lvlI % 2 == 0 then lvlI + 1 else lvlI - 1;
      ghost var before := digests;
      if sibling < |t.levels[k]| {
        digests := digests + [t.levels[k][sibling]];
      }
      BranchStep(h, level, lvlI, before, digests);
      lvlI := lvlI / 2;
      level := NextLevel(h, level);
      k := k + 1;
    }
    assert Branch(h, level, lvlI) == [];
    assert digests + [] == digests;
    p := Some(Proof(t.values[index], index, digests, t.rootHash));
  }

  lemma BranchStep(h: Hash, level: seq<Digest>, i: nat, before: seq<Digest>, digests: seq<Digest>)
    requires i < |level| && |level| > 1
    requires digests == before + if Sibling(i) < |level| then [level[Sibling(i)]] else []
    ensures before + Branch(h, level, i) == digests + Branch(h, NextLevel(h, level), i / 2)
  {
  }

  method Validate(h: Hash, p: Proof, n: nat) returns (valid: bool)
    ensures valid == IsValid(h, p, n)
  {
    var digest: Digest := h.leaf(p.value);
    var lvlI: nat, lvlN: nat := p.index, n;
    var used := 0;
    while lvlN > 1
      invariant used <= |p.digests|
      invariant Climb(h, h.leaf(p.value), p.index, n, p.digests) == Climb(h, digest, lvlI, lvlN, p.digests[used..])
      decreases lvlN
    {
      if (if lvlI % 2 == 0 then lvlI + 1 else lvlI - 1) < lvlN {
        if used == |p.digests| {
          return false;
        }
        var sibling := p.digests[used];
        digest := if lvlI % 2 == 1 then h.pair(sibling, digest) else h.pair(digest, sibling);
        assert p.digests[used..][1..] == p.digests[used + 1..];
        used := used + 1;
      }
      lvlI, lvlN := lvlI / 2, (lvlN + 1) / 2;
    }
    valid := used == |p.digests| && digest == p.rootHash;
  }
}
