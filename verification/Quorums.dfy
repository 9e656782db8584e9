/** The shared network data and the counting arguments all protocols rest on.

    Validators are numbered by their position in the sorted list of identifiers,
    so a node is a validator exactly when its number is below `n`. Larger numbers
    are observers. */
module Quorums {

  /** The greatest number of faulty nodes below one third of `n`. */
  function MaxFaulty(n: nat): (f: nat)
    requires n > 0
    ensures 3 * f < n <= 3 * f + 3
  {
    (n - 1) / 3
  }

  datatype NetInfo = NetInfo(n: nat, ourId: nat) {
    function NumFaulty(): nat
      requires n > 0
    {
      MaxFaulty(n)
    }

    function NumCorrect(): nat
      requires n > 0
    {
      n - NumFaulty()
    }

    predicate IsValidator() {
      ourId < n
    }
  }

  type NetworkInfo = net: NetInfo | net.n > 0 witness NetInfo(1, 0)

  predicate IsBelow(i: nat, n: nat) {
    i < n
  }

  /** The validators of a network of `n` nodes. */
  function Validators(n: nat): set<nat> {
    set i: nat | i < n && IsBelow(i, n)
  }

  lemma {:induction false} ValidatorsSize(n: nat)
    ensures |Validators(n)| == n
  {
    if n > 0 {
      ValidatorsSize(n - 1);
      assert Validators(n) == Validators(n - 1) + {n - 1};
    }
  }

  lemma SubsetSize<T>(a: set<T>, b: set<T>)
    requires a <= b
    ensures |a| <= |b|
  {
    assert b == a + (b - a);
  }

  /** A set larger than the set of faulty nodes contains a correct node. */
  lemma HasCorrect(a: set<nat>, faulty: set<nat>) returns (k: nat)
    requires |a| > |faulty|
    ensures k in a && k !in faulty
  {
    if a <= faulty {
      SubsetSize(a, faulty);
      assert false;
    }
    k :| k in a && k !in faulty;
  }

  /** Two sets of `n - f` validators each share a correct one. */
  lemma QuorumsIntersect(n: nat, a: set<nat>, b: set<nat>, faulty: set<nat>) returns (k: nat)
    requires n > 0
    requires a <= Validators(n) && b <= Validators(n)
    requires |faulty| <= MaxFaulty(n)
    requires |a| >= n - MaxFaulty(n) && |b| >= n - MaxFaulty(n)
    ensures k in a && k in b && k !in faulty
  {
    ValidatorsSize(n);
    SubsetSize(a + b, Validators(n));
    assert |a + b| == |a| + |b| - |a * b|;
    k := HasCorrect(a * b, faulty);
  }
}
