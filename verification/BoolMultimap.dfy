/** A map from `bool` to sets of nodes. */
module BoolMultimaps {
  datatype BoolMultimap = BoolMultimap(no: set<nat>, yes: set<nat>) {
    function Get(b: bool): set<nat> {
      if b then yes else no
    }

    function Add(b: bool, id: nat): (r: BoolMultimap)
      ensures r.Get(b) == Get(b) + {id} && r.Get(!b) == Get(!b)
    {
      if b then BoolMultimap(no, yes + {id}) else BoolMultimap(no + {id}, yes)
    }
  }

  const EMPTY := BoolMultimap({}, {})

  // ----- Sets of truth values -----

  lemma NoValues(vals: set<bool>)
    requires false !in vals && true !in vals
    ensures vals == {}
  {
    forall w: bool ensures w !in vals {
      assert if w then true !in vals else false !in vals;
    }
  }

  lemma OnlyOther(vals: set<bool>, b: bool)
    requires vals != {} && b !in vals
    ensures vals == {!b}
  {
    assert forall w :: w in vals ==> w == !b;
    if !b !in vals {
      NoValues(vals);
    }
  }

  lemma BothValues(vals: set<bool>, b: bool)
    requires b in vals && !b in vals
    ensures vals == {false, true}
  {
    assert if b then true in vals && false in vals else false in vals && true in vals;
    forall v: bool ensures v in vals <==> v in {false, true} {
      assert v in vals;
    }
  }
}
