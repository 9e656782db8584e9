/** Iterating over sets of numbers in ascending order. */
module Orders {

  lemma {:induction false} FindLeast(s: set<nat>) returns (m: nat)
    requires s != {}
    ensures m in s && forall k :: k in s ==> m <= k
  {
    var k :| k in s;
    var rest := s - {k};
    assert forall j :: j in s ==> j == k || j in rest;
    if rest == {} {
      m := k;
    } else {
      var l := FindLeast(rest);
      m := if l < k then l else k;
    }
  }

  predicate IsLeast(s: set<nat>, m: nat) {
    m in s && forall k :: k in s ==> m <= k
  }

  lemma LeastExists(s: set<nat>)
    requires s != {}
    ensures exists m: nat :: IsLeast(s, m)
  {
    var m := FindLeast(s);
    assert IsLeast(s, m);
  }

  function Least(s: set<nat>): (m: nat)
    requires s != {}
    ensures IsLeast(s, m)
  {
    LeastExists(s);
    var m: nat :| IsLeast(s, m);
    m
  }

  function Ascending(s: set<nat>): (r: seq<nat>)
    ensures forall k :: k in r <==> k in s
  {
    if s == {} then [] else [Least(s)] + Ascending(s - {Least(s)})
  }
}
