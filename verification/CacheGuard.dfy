/** The guard in front of the write list in try_evict_blocks(): when it hides blocks that could
    be evicted. */
module CacheGuard {
  import opened Options
  import opened CacheModel
  import opened CacheOps
  import opened CacheFill
  import CacheEvict
  import BlockCache

  /** Clean blocks are loose or pinned; pinned ones clean or busy. */
  lemma {:induction false} SumOfUses(bs: seq<Block>)
    ensures Sum(bs, Clean) + Sum(bs, Busy) == Sum(bs, Loose) + Sum(bs, Pinned)
  {
    if bs != [] {
      SumOfUses(bs[..|bs| - 1]);
    }
  }

  lemma {:induction false} TotalOfUses(pieces: map<Key, Piece>)
    ensures Total(pieces, Clean) + Total(pieces, Busy) == Total(pieces, Loose) + Total(pieces, Pinned)
    decreases |pieces|
  {
    if pieces != map[] {
      hide Total, Sum;
      var k :| k in pieces;
      SumOfUses(pieces[k].blocks);
      TotalRemove(pieces, k, Clean);
      TotalRemove(pieces, k, Busy);
      TotalRemove(pieces, k, Loose);
      TotalRemove(pieces, k, Pinned);
      TotalOfUses(pieces - {k});
    }
  }

  predicate CanGo(s: State, k: Key, i: nat) {
    HasBlock(s, k, i) && Drops(DropClean, s.pieces[k].blocks[i])
  }

  /** Some block could be evicted. */
  ghost predicate Evictable(s: State) {
    exists k, i :: CanGo(s, k, i)
  }

  lemma {:induction false} SomeLoose(bs: seq<Block>) returns (i: nat)
    requires Sum(bs, Loose) > 0
    ensures i < |bs| && Weigh(bs[i], Loose) > 0
  {
    if Weigh(bs[|bs| - 1], Loose) > 0 {
      i := |bs| - 1;
    } else {
      i := SomeLoose(bs[..|bs| - 1]);
    }
  }

  lemma {:induction false} SomeLoosePiece(pieces: map<Key, Piece>) returns (k: Key)
    requires Total(pieces, Loose) > 0
    ensures k in pieces && Sum(pieces[k].blocks, Loose) > 0
    decreases |pieces|
  {
    var first: Key :| first in pieces && Total(pieces, Loose) == Sum(pieces[first].blocks, Loose) + Total(pieces - {first}, Loose);
    if Sum(pieces[first].blocks, Loose) > 0 {
      k := first;
    } else {
      k := SomeLoosePiece(pieces - {first});
    }
  }

  /** The loose blocks are those that could be evicted. */
  lemma EvictableIff(s: State)
    requires Inv(s)
    ensures Evictable(s) <==> Total(s.pieces, Loose) > 0
  {
    hide Sum, Total, Listed;
    if Total(s.pieces, Loose) > 0 {
      var k := SomeLoosePiece(s.pieces);
      var i := SomeLoose(s.pieces[k].blocks);
      assert PieceOk(s.pieces[k]) && BlockOk(s.pieces[k].blocks[i]);
      assert CanGo(s, k, i);
    }
    if k, i :| CanGo(s, k, i) {
      TotalRemove(s.pieces, k, Loose);
      SumAtLeast(s.pieces[k].blocks, i, Loose);
    }
  }

  /** The guard hides something exactly if there are loose blocks, but no more of them than
      dirty ones that are in use. */
  lemma GuardHidesIff(s: State)
    requires Inv(s)
    ensures var sizes := TotalSizes(s.pieces);
      && (sizes.read <= sizes.pinned <==> Total(s.pieces, Loose) <= Total(s.pieces, Busy))
      && (sizes.read <= sizes.pinned && Evictable(s) <==> 0 < Total(s.pieces, Loose) <= Total(s.pieces, Busy))
  {
    hide Sum, Total, Inv, Evictable;
    TotalOfUses(s.pieces);
    EvictableIff(s);
  }

  // ----- a call that finds nothing -----

  const PIECE := Key(0, 0)

  /** A piece of two blocks: one was read, the other one was written and is being hashed. */
  method Prepare() returns (c: BlockCache.Cache)
    ensures fresh(c) && c.Valid()
    ensures c.pieces.Keys == {PIECE} && c.pieces[PIECE].cacheState == WRITE_LRU && c.pieces[PIECE].hash == None
    ensures c.pieces[PIECE].blocks
      == [Block(Some("a"), true, false, false, 1, 1, 0, 0), Block(Some("b"), false, false, false, 0, 0, 0, 0)]
  {
    hide Sum, Total, Listed, PieceOk, EmptyBlocks, InsertIn, Inv;
    c := new BlockCache.Cache();
    c.AllocatePiece(PIECE, 2, READ_LRU1);
    assert c.pieces[PIECE].blocks == [EMPTY_BLOCK, EMPTY_BLOCK];
    c.InsertBlocks(PIECE, 1, ["b"], false, 1, false);
    var clean := Block(Some("b"), false, false, false, 0, 0, 0, 0);
    assert c.pieces[PIECE].blocks == [EMPTY_BLOCK, clean];
    c.DirtyBlock(PIECE, 0, "a", 0, false);
    assert c.pieces[PIECE].blocks == [Block(Some("a"), true, false, false, 0, 0, 0, 0), clean];
    Balances(c);
    var ok := c.IncBlockRefcount(PIECE, 0, RefHashing);
  }

  lemma Balances(c: BlockCache.Cache)
    requires c.Valid()
    ensures c.Balanced()
  {
  }

  lemma OnePiece(pieces: map<Key, Piece>, m: Measure)
    requires pieces.Keys == {PIECE}
    ensures Total(pieces, m) == Sum(pieces[PIECE].blocks, m)
  {
    TotalRemove(pieces, PIECE, m);
    assert pieces - {PIECE} == map[];
  }

  /** A call that asks for one block finds none, though one could be freed. */
  method GuardMissesBlocks() returns (c: BlockCache.Cache, left: int)
    ensures c.Valid() && left == 1 && CanGo(c.View(), PIECE, 1)
  {
    hide Sum, Total, Inv, CacheEvict.Evicted, CacheEvict.InOrder, CacheEvict.ReadListsExhausted, CacheEvict.Exhausted;
    c := Prepare();
    ghost var s := c.View();
    GuardIsUp(c);
    assert CacheEvict.CursorsOk(s);
    left := CacheEvict.TryEvictBlocks(c, 1, None);
    SameHere(s, c.View());
    OnePiece(c.pieces, Clean);
  }

  lemma GuardIsUp(c: BlockCache.Cache)
    requires c.Valid() && c.pieces.Keys == {PIECE}
    requires c.pieces[PIECE].blocks
      == [Block(Some("a"), true, false, false, 1, 1, 0, 0), Block(Some("b"), false, false, false, 0, 0, 0, 0)]
    ensures c.readCacheSize == c.pinnedBlocks == Total(c.pieces, Clean) == 1
  {
    hide Total, Sum, Inv;
    OnePiece(c.pieces, Clean);
    OnePiece(c.pieces, Pinned);
    var bs := c.pieces[PIECE].blocks;
    SumOfTwo(bs[0], bs[1], Clean);
    SumOfTwo(bs[0], bs[1], Pinned);
  }

  lemma SumOfTwo(a: Block, b: Block, m: Measure)
    ensures Sum([a, b], m) == Weigh(a, m) + Weigh(b, m)
  {
    assert [a, b][..1] == [a] && [a][..0] == [];
    assert Sum([a], m) == Weigh(a, m);
  }

  lemma SameHere(s: State, t: State)
    requires s.pieces.Keys == {PIECE} && s.pieces[PIECE].cacheState == WRITE_LRU
    requires CacheEvict.OnlyLists(s, t, {VOLATILE_READ_LRU, READ_LRU1, READ_LRU2}) && CacheEvict.Evicted(s, t)
    ensures t.pieces == s.pieces
  {
    hide CacheEvict.Kept, CacheEvict.Expendable;
    assert CacheEvict.Spared(s, t, PIECE);
  }
}
