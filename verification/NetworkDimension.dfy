/** The numbering of network dimensions, in the machine integers of the code. That every
    operation stays within the range of its type is part of what is verified here. */
module NetworkDimensions {

  newtype u16 = x: int | 0 <= x < 0x1_0000
  newtype u32 = x: int | 0 <= x < 0x1_0000_0000

  datatype Dimension = Dimension(size: u16, faulty: u16)

  /** The bound under which the protocols are safe. */
  predicate IsBft(d: Dimension) {
    d.faulty as int * 3 < d.size as int
  }

  type NetworkDimension = d: Dimension | IsBft(d) witness Dimension(1, 0)

  /** The order of the code: by size, then by the number of faulty nodes. */
  predicate Less(c: Dimension, d: Dimension) {
    c.size < d.size || (c.size == d.size && c.faulty < d.faulty)
  }

  const LARGEST: NetworkDimension := Dimension(65535, 21844)

  /** The next-larger dimension: with one more faulty node if possible, or one more node. */
  function Succ(d: NetworkDimension): (r: NetworkDimension)
    requires d != LARGEST
    ensures Less(d, r)
  {
    if 3 * (d.faulty as int + 1) >= d.size as int then
      LargestIsLast(d);
      Dimension(d.size + 1, 0)
    else Dimension(d.size, d.faulty + 1)
  }

  lemma LargestIsLast(d: NetworkDimension)
    requires 3 * (d.faulty as int + 1) >= d.size as int
    ensures d.size == 65535 ==> d == LARGEST
  {
  }

  method ComputeSucc(d: NetworkDimension) returns (r: NetworkDimension)
    requires d != LARGEST
    ensures r == Succ(d)
  {
    var n, f := d.size, d.faulty + 1;
    if 3 * f >= n {
      LargestIsLast(d);
      f := 0;
      n := n + 1;
    }
    r := Dimension(n, f);
  }

  /** Nothing lies between a dimension and its successor. */
  lemma SuccIsNext(d: NetworkDimension, e: NetworkDimension)
    requires d != LARGEST && Less(d, e)
    ensures e == Succ(d) || Less(Succ(d), e)
  {
  }

  // ----- Triangular numbers -----

  function Triangular(k: nat): nat {
    if k == 0 then 0 else Triangular(k - 1) + k
  }

  lemma {:induction false} TriangularProduct(k: nat)
    ensures 2 * Triangular(k) == k * (k + 1)
  {
    if k > 0 {
      TriangularProduct(k - 1);
      assert k * (k + 1) == (k - 1) * k + 2 * k;
    }
  }

  lemma {:induction false} TriangularGrows(j: nat, k: nat)
    requires j < k
    ensures Triangular(j) + j + 1 <= Triangular(k)
    decreases k
  {
    if j < k - 1 {
      TriangularGrows(j, k - 1);
    }
  }

  lemma MulMono(a: nat, b: nat, c: nat, d: nat)
    requires a <= c && b <= d
    ensures a * b <= c * d
  {
    assert c * d == a * b + (c - a) * d + a * (d - b);
    assert (c - a) * d >= 0 && a * (d - b) >= 0;
  }

  lemma OddSquare(k: nat)
    ensures (2 * k + 1) * (2 * k + 1) == 8 * Triangular(k) + 1
  {
    TriangularProduct(k);
    assert (2 * k + 1) * (2 * k + 1) == 4 * (k * (k + 1)) + 1;
  }

  /** The integer square root. */
  function IntegerSqrt(n: nat): (r: nat)
    ensures r * r <= n < (r + 1) * (r + 1)
  {
    if n == 0 then 0
    else
      var r := IntegerSqrt(n - 1);
      if (r + 1) * (r + 1) <= n then
        NextSquare(r);
        r + 1
      else r
  }

  lemma NextSquare(r: nat)
    ensures (r + 2) * (r + 2) == (r + 1) * (r + 1) + 2 * r + 3
  {
  }

  lemma SqrtBound(n: nat, bound: nat)
    requires n < bound * bound
    ensures IntegerSqrt(n) < bound
  {
    hide IntegerSqrt;
    var r := IntegerSqrt(n);
    if r >= bound {
      MulMono(bound, bound, r, r);
    }
  }

  /** The largest `k` such that the numbers up to `k` add up to no more than `n`. */
  function MaxSum(n: u32): (k: u32)
    requires 8 * n as int < 0xFFFF_FFFF
    ensures Triangular(k as nat) <= n as nat < Triangular(k as nat + 1)
  {
    var m: u32 := 1 + 8 * n;
    SqrtBound(m as nat, 0x1_0000);
    var r := IntegerSqrt(m as nat) as u32;
    SqrtIsPositive(n as nat);
    MaxSumIsLargest(n as nat);
    (r - 1) / 2
  }

  lemma SqrtIsPositive(n: nat)
    ensures IntegerSqrt(1 + 8 * n) > 0
  {
    hide IntegerSqrt;
  }

  lemma MaxSumIsLargest(n: nat)
    ensures var r := IntegerSqrt(1 + 8 * n);
            r > 0 && Triangular((r - 1) / 2) <= n < Triangular((r - 1) / 2 + 1)
  {
    hide IntegerSqrt, Triangular;
    SqrtIsPositive(n);
    var r := IntegerSqrt(1 + 8 * n);
    var k := (r - 1) / 2;
    assert 2 * k + 1 <= r <= 2 * k + 2;
    MulMono(2 * k + 1, 2 * k + 1, r, r);
    MulMono(r + 1, r + 1, 2 * (k + 1) + 1, 2 * (k + 1) + 1);
    OddSquare(k);
    OddSquare(k + 1);
  }

  // ----- The two conversions -----

  /** Dimensions come in blocks of three sizes with the same greatest number of faults. */
  function Block(d: NetworkDimension): nat {
    (d.size as int - 1) / 3
  }

  /** The place of a size in its block. */
  function Place(d: NetworkDimension): (i: nat)
    ensures i <= 2 && d.size as int == 3 * Block(d) + 1 + i
    ensures Block(d) <= 21844 && d.faulty as int <= Block(d)
  {
    d.size as int - 3 * Block(d) - 1
  }

  function Times(i: nat, c: nat): nat {
    if i == 0 then 0 else if i == 1 then c else 2 * c
  }

  lemma TimesIsProduct(i: nat, c: nat)
    requires i <= 2
    ensures Times(i, c) == i * c
  {
  }

  lemma BlockStart(b: nat)
    requires b <= 21844
    ensures 0 <= 3 * b * (b + 1) <= 1431546540
    ensures (3 * b * (b + 1)) / 2 == 3 * Triangular(b)
  {
    TriangularProduct(b);
    MulMono(b, b + 1, 21844, 21845);
    assert 3 * b * (b + 1) == 3 * (b * (b + 1));
  }

  /** The number of the first dimension of a block. */
  function Start(b: u32): (n: u32)
    requires b <= 21844
    ensures n as int == 3 * Triangular(b as nat) && n <= 715773270
  {
    BlockStart(b as nat);
    3 * b * (b + 1) / 2
  }

  /** The number of a dimension: those of the blocks before, of the sizes before in this
      block, and of the smaller numbers of faults. */
  function ToNumber(d: NetworkDimension): (n: u32)
    ensures n as int == 3 * Triangular(Block(d)) + Times(Place(d), Block(d) + 1) + d.faulty as int
  {
    var i := Place(d);
    var b: u32 := (d.size as u32 - 1) / 3;
    var start := Start(b);
    start + Offset(d.size as u32 - 3 * b - 1, b + 1, d.faulty as u32)
  }

  const COUNT: nat := 715838805

  lemma CountIs()
    ensures COUNT == ToNumber(LARGEST) as nat + 1
    ensures COUNT == 3 * Triangular(21844 + 1)
  {
    TriangularProduct(21844);
    TriangularProduct(21845);
  }

  lemma BelowCount(d: NetworkDimension)
    ensures ToNumber(d) as nat < COUNT
  {
    hide Triangular, ToNumber, Times;
    CountIs();
    NumberBounds(d);
    if Block(d) < 21844 {
      TriangularGrows(Block(d) + 1, 21845);
    }
  }

  lemma NumberBounds(d: NetworkDimension)
    ensures 3 * Triangular(Block(d)) <= ToNumber(d) as int < 3 * Triangular(Block(d) + 1)
  {
    hide ToNumber;
    var i := Place(d);
  }

  function Offset(place: u32, c: u32, faulty: u32): (r: u32)
    requires place <= 2 && faulty < c <= 21845
    ensures r as int == Times(place as nat, c as nat) + faulty as int && r < 3 * c
  {
    TimesIsProduct(place as nat, c as nat);
    place * c + faulty
  }

  /** The faults and the place in the block, for the offset of a dimension. */
  function InBlock(offset: u32, c: u32): (r: (u32, u32))
    requires 0 < c <= 21845 && offset < 3 * c
    ensures r.0 < c && r.1 <= 2 && offset as int == Times(r.1 as nat, c as nat) + r.0 as int
  {
    OffsetSplit(offset as nat, c as nat);
    (offset % c, offset / c)
  }

  /** The dimension with this number. */
  function FromNumber(n: u32): (d: NetworkDimension)
    requires n as nat < COUNT
    ensures 3 * Triangular(Block(d)) + Times(Place(d), Block(d) + 1) + d.faulty as int == n as int
  {
    var b: u32 := MaxSum(n / 3);
    NumberBlock(n as nat, b as nat);
    var start := Start(b);
    var offset: u32 := n - start;
    var (faulty, place) := InBlock(offset, b + 1);
    var size: u32 := 3 * b + 1 + place;
    Dimension(size as u16, faulty as u16)
  }

  lemma NumberBlock(n: nat, b: nat)
    requires n < COUNT && Triangular(b) <= n / 3 < Triangular(b + 1)
    ensures b <= 21844
    ensures 3 * Triangular(b) <= n < 3 * Triangular(b) + 3 * (b + 1)
  {
    CountIs();
    if b > 21845 {
      TriangularGrows(21845, b);
    }
  }

  lemma OffsetSplit(offset: nat, c: nat)
    requires c > 0 && offset < 3 * c
    ensures offset / c <= 2 && offset % c < c && offset == Times(offset / c, c) + offset % c
  {
    if offset < c {
      assert offset / c == 0;
    } else if offset < 2 * c {
      assert offset == 1 * c + (offset - c);
      DivIs(offset, 1, offset - c, c);
    } else {
      DivIs(offset, 2, offset - 2 * c, c);
    }
  }

  lemma DivIs(n: nat, q: nat, r: nat, c: nat)
    requires n == q * c + r && r < c
    ensures n / c == q && n % c == r
  {
    var p := n / c;
    assert n == p * c + n % c;
    if p < q {
      MulMono(p + 1, c, q, c);
    } else if p > q {
      MulMono(q + 1, c, p, c);
    }
  }

  // ----- The numbering -----

  /** The numbers are in the order of the dimensions. */
  lemma NumbersKeepOrder(c: NetworkDimension, d: NetworkDimension)
    requires Less(c, d)
    ensures ToNumber(c) < ToNumber(d)
  {
    hide ToNumber, Triangular;
    var i, j := Place(c), Place(d);
    if Block(c) != Block(d) {
      NumberBounds(c);
      NumberBounds(d);
      if Block(c) + 1 < Block(d) {
        TriangularGrows(Block(c) + 1, Block(d));
      }
    }
  }

  /** The conversions are inverse to each other: the numbers below `COUNT` are exactly those
      of the dimensions, each of one. */
  lemma Bijection(d: NetworkDimension, n: u32)
    requires n as nat < COUNT
    ensures ToNumber(d) as nat < COUNT && FromNumber(ToNumber(d)) == d
    ensures ToNumber(FromNumber(n)) == n
    ensures ToNumber(d) == n <==> d == FromNumber(n)
  {
    hide ToNumber, FromNumber;
    BelowCount(d);
    var e := FromNumber(ToNumber(d));
    assert ToNumber(e) == ToNumber(d);
    OrderIso(d, e);
    OrderIso(e, d);
  }

  /** Order in both directions. */
  lemma OrderIso(c: NetworkDimension, d: NetworkDimension)
    ensures Less(c, d) <==> ToNumber(c) < ToNumber(d)
  {
    hide ToNumber;
    if Less(c, d) {
      NumbersKeepOrder(c, d);
    } else if c != d {
      NumbersKeepOrder(d, c);
    }
  }

  /** The successor has the next number. */
  lemma SuccIsPlusOne(d: NetworkDimension)
    requires d != LARGEST
    ensures ToNumber(Succ(d)) as int == ToNumber(d) as int + 1
  {
    hide ToNumber;
    var i, j := Place(d), Place(Succ(d));
    assert Block(Succ(d)) == Block(d) || Block(Succ(d)) == Block(d) + 1;
  }
}
