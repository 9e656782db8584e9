/** A hash without collisions, as the theorems about Merkle trees assume it: digests are
    numbers of any size here, so there are enough of them. */
module IdealHash {
  import opened Merkle
  import opened NetworkDimensions

  function PairNumber(a: nat, b: nat): nat {
    Triangular(a + b) + a
  }

  lemma PairInjective(a: nat, b: nat, c: nat, d: nat)
    requires PairNumber(a, b) == PairNumber(c, d)
    ensures a == c && b == d
  {
    if a + b < c + d {
      TriangularGrows(a + b, c + d);
    } else if c + d < a + b {
      TriangularGrows(c + d, a + b);
    }
  }

  function BytesNumber(b: Bytes): nat {
    if b == [] then 0 else PairNumber(b[0] as nat, BytesNumber(b[1..])) + 1
  }

  lemma {:induction false} BytesInjective(a: Bytes, b: Bytes)
    requires BytesNumber(a) == BytesNumber(b)
    ensures a == b
  {
    if a != [] && b != [] {
      PairInjective(a[0] as nat, BytesNumber(a[1..]), b[0] as nat, BytesNumber(b[1..]));
      BytesInjective(a[1..], b[1..]);
      assert a == [a[0]] + a[1..] && b == [b[0]] + b[1..];
    }
  }

  /** The assumption on hashes can be met. */
  lemma HashesExist() returns (h: Hash)
    ensures CollisionFree(h)
  {
    h := Hash((b: Bytes) => Digest(BytesNumber(b)), (a: Digest, b: Digest) => Digest(PairNumber(a.bits, b.bits)));
    forall a, b | h.leaf(a) == h.leaf(b) ensures a == b {
      BytesInjective(a, b);
    }
    forall a, b, c, d | h.pair(a, b) == h.pair(c, d) ensures a == c && b == d {
      PairInjective(a.bits, b.bits, c.bits, d.bits);
    }
  }
}
