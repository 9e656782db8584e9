/** Whether it matters which of the shards a node has: reliable broadcast is total only if it
    does not. */
module ShardSubsets {
  import opened Options
  import opened Quorums
  import opened Merkle
  import opened ErasureCoding

  /** The leaves with these indices. */
  function Those(leaves: seq<Bytes>, ids: set<nat>): seq<Option<Bytes>> {
    seq(|leaves|, i requires 0 <= i < |leaves| => if i in ids then Some(leaves[i]) else None)
  }

  /** What a node makes of these leaves. */
  function DecodeFrom(c: Coding, h: Hash, leaves: seq<Bytes>, ids: set<nat>): Option<Bytes>
    requires |leaves| > 0
  {
    DecodeFromShards(c, h, Those(leaves, ids), Root(h, Leaves(h, leaves)))
  }

  /** At least as many as a node waits for. */
  ghost predicate AreEnough(c: Coding, leaves: seq<Bytes>, ids: set<nat>) {
    ids <= Validators(|leaves|) && |ids| >= c.dataShards
  }

  /** All nodes with enough leaves make the same of them. */
  ghost predicate DecodeAlike(c: Coding, h: Hash, leaves: seq<Bytes>)
    requires |leaves| > 0
  {
    forall ids: set<nat>, others: set<nat> :: AreEnough(c, leaves, ids) && AreEnough(c, leaves, others) ==>
                                                DecodeFrom(c, h, leaves, ids) == DecodeFrom(c, h, leaves, others)
  }

  ghost predicate IsSize(c: Coding, leaves: seq<Bytes>) {
    |leaves| == c.dataShards + c.ParityShardCount()
  }

  lemma PresentThose(leaves: seq<Bytes>, ids: set<nat>)
    requires ids <= Validators(|leaves|)
    ensures Present(Those(leaves, ids)) == ids && Agrees(Those(leaves, ids), leaves)
  {
  }

  lemma AllThose(leaves: seq<Bytes>)
    ensures Those(leaves, Validators(|leaves|)) == Whole(leaves)
  {
    forall i | 0 <= i < |leaves| ensures i in Validators(|leaves|) {
      assert IsBelow(i, |leaves|);
    }
  }

  /** Whatever is decoded, the leaves have been restored. */
  lemma DecodedIsLeaves(c: Coding, h: Hash, leaves: seq<Bytes>, ids: set<nat>)
    requires Lawful(c) && CollisionFree(h) && |leaves| > 0 && ids <= Validators(|leaves|)
    requires DecodeFrom(c, h, leaves, ids).Some?
    ensures c.Reconstruct(Those(leaves, ids)) == Some(leaves)
    ensures |leaves| >= c.dataShards && DecodeFrom(c, h, leaves, ids) == Payload(c, leaves)
  {
    hide Root, Leaves, Payload, CollisionFree, IsCodeword;
    PresentThose(leaves, ids);
    var word := c.Reconstruct(Those(leaves, ids)).value;
    assert IsCompletion(c, Those(leaves, ids), word);
    RootsDetermineValues(h, leaves, word);
  }

  /** If any leaves decode, all of them together do. */
  lemma AnyThenAll(c: Coding, h: Hash, leaves: seq<Bytes>, ids: set<nat>)
    requires Lawful(c) && CollisionFree(h) && |leaves| > 0 && ids <= Validators(|leaves|)
    ensures DecodeFrom(c, h, leaves, ids).Some? ==>
              DecodeFrom(c, h, leaves, ids) == DecodeFrom(c, h, leaves, Validators(|leaves|))
  {
    hide Root, Leaves, Payload, CollisionFree, IsCodeword, Those, DecodeFrom;
    if DecodeFrom(c, h, leaves, ids).Some? {
      DecodedIsLeaves(c, h, leaves, ids);
      assert IsCompletion(c, Those(leaves, ids), leaves);
      AllThose(leaves);
      WholeDecodes(c, h, leaves);
    }
  }

  lemma WholeDecodes(c: Coding, h: Hash, leaves: seq<Bytes>)
    requires |leaves| > 0 && |leaves| >= c.dataShards && c.Reconstruct(Whole(leaves)) == Some(leaves)
    ensures DecodeFrom(c, h, leaves, Validators(|leaves|)) == Payload(c, leaves)
  {
    hide Root, Leaves, Payload;
    AllThose(leaves);
  }

  lemma CodewordDecodes(c: Coding, h: Hash, leaves: seq<Bytes>, ids: set<nat>)
    requires Lawful(c) && |leaves| > 0 && IsCodeword(c, leaves) && AreEnough(c, leaves, ids) && IsSize(c, leaves)
    ensures DecodeFrom(c, h, leaves, ids) == Payload(c, leaves)
  {
    hide Root, Leaves, Payload, IsCodeword;
    PresentThose(leaves, ids);
  }

  /** The exact condition for all nodes with enough leaves to decode alike: there are no parity
      shards, or the leaves are a codeword, or not even all of them decode to anything. */
  lemma DecodeAlikeIff(c: Coding, h: Hash, leaves: seq<Bytes>)
    requires Lawful(c) && CollisionFree(h) && IsSize(c, leaves)
    ensures DecodeAlike(c, h, leaves)
            <==> c.Trivial? || IsCodeword(c, leaves) || DecodeFrom(c, h, leaves, Validators(|leaves|)).None?
  {
    hide Lawful, CollisionFree, IsCodeword, DecodeFrom, IsSize;
    assert c.dataShards > 0 && |leaves| > 0 by {
      SizePositive(c, leaves);
    }
    var all := Validators(|leaves|);
    ValidatorsSize(|leaves|);
    if c.Trivial? || IsCodeword(c, leaves) || DecodeFrom(c, h, leaves, all).None? {
      forall ids: set<nat> | AreEnough(c, leaves, ids)
        ensures DecodeFrom(c, h, leaves, ids) == DecodeFrom(c, h, leaves, all)
      {
        AreEnoughAlike(c, h, leaves, ids);
      }
    } else if DecodeAlike(c, h, leaves) {
      FewIsCodeword(c, h, leaves);
      assert false;
    }
  }

  lemma SizePositive(c: Coding, leaves: seq<Bytes>)
    requires Lawful(c) && IsSize(c, leaves)
    ensures c.dataShards > 0 && |leaves| >= c.dataShards
  {
    hide IsCodeword;
  }

  lemma AreEnoughAlike(c: Coding, h: Hash, leaves: seq<Bytes>, ids: set<nat>)
    requires Lawful(c) && CollisionFree(h) && IsSize(c, leaves) && |leaves| > 0 && AreEnough(c, leaves, ids)
    requires c.Trivial? || IsCodeword(c, leaves) || DecodeFrom(c, h, leaves, Validators(|leaves|)).None?
    ensures DecodeFrom(c, h, leaves, ids) == DecodeFrom(c, h, leaves, Validators(|leaves|))
  {
    hide Lawful, CollisionFree, IsCodeword, DecodeFrom;
    var all := Validators(|leaves|);
    ValidatorsSize(|leaves|);
    SizePositive(c, leaves);
    if c.Trivial? {
      FullSet(ids, |leaves|);
      assert ids == all;
    } else if IsCodeword(c, leaves) {
      CodewordDecodes(c, h, leaves, ids);
      CodewordDecodes(c, h, leaves, all);
    } else {
      AnyThenAll(c, h, leaves, ids);
    }
  }

  /** If exactly enough leaves decode, all of them are a codeword. */
  lemma ExactlyEnough(c: Coding, h: Hash, leaves: seq<Bytes>, ids: set<nat>)
    requires Lawful(c) && CollisionFree(h) && |leaves| > 0 && c.ReedSolomon?
    requires ids <= Validators(|leaves|) && |ids| == c.dataShards && DecodeFrom(c, h, leaves, ids).Some?
    ensures IsCodeword(c, leaves)
  {
    hide CollisionFree, IsCodeword, DecodeFrom, Those;
    DecodedIsLeaves(c, h, leaves, ids);
    PresentThose(leaves, ids);
    assert IsCompletion(c, Those(leaves, ids), leaves);
  }

  lemma FewIsCodeword(c: Coding, h: Hash, leaves: seq<Bytes>)
    requires Lawful(c) && CollisionFree(h) && IsSize(c, leaves) && |leaves| > 0 && c.ReedSolomon?
    requires DecodeAlike(c, h, leaves) && DecodeFrom(c, h, leaves, Validators(|leaves|)).Some?
    ensures IsCodeword(c, leaves)
  {
    hide CollisionFree, IsCodeword, DecodeFrom;
    var few := Validators(c.dataShards);
    ValidatorsSize(c.dataShards);
    ValidatorsSize(|leaves|);
    assert few <= Validators(|leaves|);
    assert AreEnough(c, leaves, few) && AreEnough(c, leaves, Validators(|leaves|));
    ExactlyEnough(c, h, leaves, few);
  }
}
