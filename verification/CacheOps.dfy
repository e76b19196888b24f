/** What each operation of the block cache does to its state, and that every one of them
    keeps the cache well-formed. The counters of a piece are given by recounting its
    blocks; the class in BlockCache.dfy keeps them up to date step by step. */
module CacheOps {
  import opened Options
  import opened CacheModel

  // ----- references -----

  function Count(b: Block, reason: Reason): nat {
    match reason
    case RefHashing => b.hashing
    case RefReading => b.reading
    case RefFlushing => b.flushing
  }

  function Referenced(b: Block, reason: Reason): Block {
    var c := b.(refcount := b.refcount + 1);
    match reason
    case RefHashing => c.(hashing := b.hashing + 1)
    case RefReading => c.(reading := b.reading + 1)
    case RefFlushing => c.(flushing := b.flushing + 1)
  }

  function Released(b: Block, reason: Reason): Block
    requires b.refcount > 0 && Count(b, reason) > 0
  {
    var c := b.(refcount := b.refcount - 1);
    match reason
    case RefHashing => c.(hashing := b.hashing - 1)
    case RefReading => c.(reading := b.reading - 1)
    case RefFlushing => c.(flushing := b.flushing - 1)
  }

  predicate HasBlock(s: State, k: Key, i: nat) {
    k in s.pieces && i < |s.pieces[k].blocks|
  }

  /** Replaces one block of a piece. */
  function PutBlock(s: State, k: Key, i: nat, b: Block): State
    requires HasBlock(s, k, i)
  {
    Put(s, k, Recount(s.pieces[k], s.pieces[k].blocks[i := b]))
  }

  /** inc_block_refcount(): nothing happens without a buffer. */
  function IncRef(s: State, k: Key, i: nat, reason: Reason): State
    requires HasBlock(s, k, i)
  {
    var b := s.pieces[k].blocks[i];
    if b.buf.None? then s else PutBlock(s, k, i, Referenced(b, reason))
  }

  function DecRef(s: State, k: Key, i: nat, reason: Reason): State
    requires HasBlock(s, k, i)
    requires var b := s.pieces[k].blocks[i]; b.refcount > 0 && Count(b, reason) > 0
  {
    PutBlock(s, k, i, Released(s.pieces[k].blocks[i], reason))
  }

  lemma PutBlockKeepsInv(s: State, k: Key, i: nat, b: Block)
    requires Inv(s) && HasBlock(s, k, i) && BlockOk(b)
    requires b.dirty && b.buf.Some? ==> s.pieces[k].blocks[i].dirty
    requires s.pieces[k].blocks[i].buf.None? ==> b.buf.None?
    ensures Inv(PutBlock(s, k, i, b))
  {
    var p := s.pieces[k];
    var bs := p.blocks[i := b];
    SumUpdate(p.blocks, i, b, Dirty);
    SumUpdate(p.blocks, i, b, Cached);
    SumUpdate(p.blocks, i, b, Refs);
    if IsGhost(p.cacheState) {
      SumAtLeast(p.blocks, i, Cached);
    }
    PutKeepsInv(s, k, Recount(p, bs));
  }

  lemma IncRefKeepsInv(s: State, k: Key, i: nat, reason: Reason)
    requires Inv(s) && HasBlock(s, k, i) && reason != RefFlushing
    ensures Inv(IncRef(s, k, i, reason))
  {
    var b := s.pieces[k].blocks[i];
    assert BlockOk(b);
    if b.buf.Some? {
      PutBlockKeepsInv(s, k, i, Referenced(b, reason));
    }
  }

  lemma DecRefKeepsInv(s: State, k: Key, i: nat, reason: Reason)
    requires Inv(s) && HasBlock(s, k, i) && reason != RefFlushing
    requires var b := s.pieces[k].blocks[i]; b.refcount > 0 && Count(b, reason) > 0
    ensures Inv(DecRef(s, k, i, reason))
  {
    var b := s.pieces[k].blocks[i];
    assert BlockOk(b);
    PutBlockKeepsInv(s, k, i, Released(b, reason));
  }

  // ----- changes of all blocks of a piece -----

  datatype Change =
    | DropUnreferenced  // evict_piece()
    | DropDirty         // abort_dirty()
    | DropClean         // try_evict_blocks()

  predicate Drops(c: Change, b: Block) {
    && b.buf.Some? && b.refcount == 0
    && match c
       case DropUnreferenced => true
       case DropDirty => b.dirty
       case DropClean => !b.dirty && !b.pending
  }

  function Emptied(b: Block): Block {
    b.(buf := None, dirty := false)
  }

  function Apply(c: Change, b: Block): Block {
    if Drops(c, b) then Emptied(b) else b
  }

  function MapBlocks(bs: seq<Block>, c: Change): (r: seq<Block>)
    ensures |r| == |bs|
    ensures forall i :: 0 <= i < |bs| ==> r[i] == Apply(c, bs[i])
  {
    if bs == [] then [] else MapBlocks(bs[..|bs| - 1], c) + [Apply(c, bs[|bs| - 1])]
  }

  lemma MapKeepsBlocksOk(bs: seq<Block>, c: Change)
    requires BlocksOk(bs)
    ensures BlocksOk(MapBlocks(bs, c))
  {
    forall i | 0 <= i < |bs|
      ensures BlockOk(MapBlocks(bs, c)[i])
    {
      assert BlockOk(bs[i]);
    }
  }

  /** No measure grows, and references stay as they are. */
  lemma {:induction false} MapShrinks(bs: seq<Block>, c: Change, m: Measure)
    requires m != Pinned
    ensures Sum(MapBlocks(bs, c), m) <= Sum(bs, m)
    ensures m == Refs ==> Sum(MapBlocks(bs, c), m) == Sum(bs, m)
  {
    if bs != [] {
      MapShrinks(bs[..|bs| - 1], c, m);
      assert MapBlocks(bs, c)[..|bs| - 1] == MapBlocks(bs[..|bs| - 1], c);
    }
  }

  lemma MapKeepsPieceOk(p: Piece, c: Change)
    requires PieceOk(p)
    ensures PieceOk(Recount(p, MapBlocks(p.blocks, c)))
  {
    MapKeepsBlocksOk(p.blocks, c);
    MapShrinks(p.blocks, c, Dirty);
    MapShrinks(p.blocks, c, Cached);
    MapShrinks(p.blocks, c, Refs);
  }

  /** If nothing is referenced, eviction empties the piece. */
  lemma UnreferencedIsEmptied(bs: seq<Block>)
    requires Sum(bs, Refs) == 0
    ensures Sum(MapBlocks(bs, DropUnreferenced), Cached) == 0
  {
    SumIsZero(bs, Refs);
    forall i | 0 <= i < |bs|
      ensures Weigh(MapBlocks(bs, DropUnreferenced)[i], Cached) == 0
    {
      assert Weigh(bs[i], Refs) == 0;
    }
    ZeroSum(MapBlocks(bs, DropUnreferenced), Cached);
  }

  // ----- the lists -----

  /** update_cache_state(): dirty or hashing pieces belong to the write list. */
  function DesiredState(p: Piece): nat {
    if p.numDirty > 0 || p.hash.Some? then WRITE_LRU
    else if p.cacheState == WRITE_LRU then READ_LRU1
    else p.cacheState
  }

  function UpdateCacheState(s: State, k: Key): State
    requires k in s.pieces && s.pieces[k].cacheState < |s.lru| == NUM_LRUS
  {
    var p := s.pieces[k];
    if DesiredState(p) == p.cacheState then s else Move(s, k, p, DesiredState(p))
  }

  lemma UpdateKeepsInv(s: State, k: Key)
    requires Inv(s) && k in s.pieces
    ensures Inv(UpdateCacheState(s, k))
  {
    var p := s.pieces[k];
    if DesiredState(p) != p.cacheState {
      MoveKeepsInv(s, k, p, DesiredState(p));
    }
  }

  /** The list cache_hit() moves a piece to. The first hit of a block of a piece that is
      cached counts for nothing; a ghost always comes back. */
  function HitTarget(p: Piece, hit: bool): Option<nat> {
    if p.cacheState < READ_LRU1 || p.cacheState > READ_LRU2_GHOST then None
    else if hit then Some(READ_LRU2)
    else if p.cacheState == READ_LRU1_GHOST then Some(READ_LRU1)
    else if p.cacheState == READ_LRU2_GHOST then Some(READ_LRU2)
    else None
  }

  function CacheHit(s: State, k: Key, block: nat): State
    requires HasBlock(s, k, block) && s.pieces[k].cacheState < |s.lru| == NUM_LRUS
  {
    var p := s.pieces[k];
    match HitTarget(p, p.blocks[block].hit)
    case None => s
    case Some(q) =>
      Move(s, k, p, q).(lastOp := if p.cacheState == READ_LRU1_GHOST then GhostHitLru1
                                  else if p.cacheState == READ_LRU2_GHOST then GhostHitLru2
                                  else s.lastOp)
  }

  lemma CacheHitKeepsInv(s: State, k: Key, block: nat)
    requires Inv(s) && HasBlock(s, k, block)
    ensures var t := CacheHit(s, k, block);
      && Inv(t) && t.pieces.Keys == s.pieces.Keys
      && !IsGhost(t.pieces[k].cacheState)
      && t.pieces[k] == s.pieces[k].(cacheState := t.pieces[k].cacheState)
      && forall x :: x in s.pieces && x != k ==> t.pieces[x] == s.pieces[x]
  {
    var p := s.pieces[k];
    var target := HitTarget(p, p.blocks[block].hit);
    if target.Some? {
      MoveKeepsInv(s, k, p, target.value);
    }
  }

  /** A piece in the list of volatile pieces stays there: the promotion that cache_hit()
      has for it is behind a test that excludes the list. */
  lemma VolatileIsNotPromoted(s: State, k: Key, block: nat)
    requires HasBlock(s, k, block) && |s.lru| == NUM_LRUS
    ensures s.pieces[k].cacheState == VOLATILE_READ_LRU ==> CacheHit(s, k, block) == s
  {
  }

  // ----- allocating and freeing pieces -----

  function EmptyBlocks(n: nat): (bs: seq<Block>)
    ensures |bs| == n && forall i :: 0 <= i < n ==> bs[i] == EMPTY_BLOCK
  {
    if n == 0 then [] else EmptyBlocks(n - 1) + [EMPTY_BLOCK]
  }

  function NewPiece(n: nat, cacheState: nat): Piece {
    Piece(EmptyBlocks(n), 0, 0, 0, 0, false, false, None, false, false, cacheState, 0, false, [], [])
  }

  /** n is the number of blocks in the piece. A piece is only moved to an earlier list. */
  function AllocatePiece(s: State, k: Key, n: nat, cacheState: nat): State
    requires Inv(s) && WRITE_LRU <= cacheState < NUM_LRUS
  {
    if k !in s.pieces then
      Add(s, k, NewPiece(n, cacheState)).(lastOp := if cacheState == READ_LRU1 then CacheMiss else s.lastOp)
    else
      var p := s.pieces[k].(markedForEviction := false);
      if p.cacheState > cacheState then Move(s, k, p, cacheState) else Put(s, k, p)
  }

  lemma AllocateKeepsInv(s: State, k: Key, n: nat, cacheState: nat)
    requires Inv(s) && WRITE_LRU <= cacheState < NUM_LRUS && !IsGhost(cacheState)
    ensures Inv(AllocatePiece(s, k, n, cacheState))
  {
    if k !in s.pieces {
      NewPieceOk(n, cacheState);
      AddKeepsInv(s, k, NewPiece(n, cacheState));
    } else {
      var p := s.pieces[k].(markedForEviction := false);
      if p.cacheState > cacheState {
        MoveKeepsInv(s, k, p, cacheState);
      } else {
        PutKeepsInv(s, k, p);
      }
    }
  }

  lemma NewPieceOk(n: nat, cacheState: nat)
    requires WRITE_LRU <= cacheState < NUM_LRUS
    ensures PieceOk(NewPiece(n, cacheState))
  {
    EmptySums(n, Dirty);
    EmptySums(n, Cached);
    EmptySums(n, Refs);
    EmptySums(n, Pinned);
  }

  lemma EmptySums(n: nat, m: Measure)
    ensures Sum(EmptyBlocks(n), m) == 0
  {
    ZeroSum(EmptyBlocks(n), m);
  }

  /** Removes the oldest pieces of ghost list g until it is shorter than size. */
  function Trim(s: State, g: nat, size: nat): State
    requires Listed(s) && g < NUM_LRUS && size > 0
    decreases |s.lru[g]|
  {
    if |s.lru[g]| < size then s
    else
      var oldest := s.lru[g][0];
      assert oldest in s.lru[g];
      RemoveKeepsListed(s, oldest);
      Trim(Remove(s, oldest), g, size)
  }

  lemma RemoveKeepsListed(s: State, k: Key)
    requires Listed(s) && k in s.pieces
    ensures Listed(Remove(s, k))
    ensures |Remove(s, k).lru[s.pieces[k].cacheState]| == |s.lru[s.pieces[k].cacheState]| - 1
  {
    WithoutOnce(s.lru[s.pieces[k].cacheState], k);
  }

  /** move_to_ghost() of a piece without blocks. */
  function MoveToGhost(s: State, k: Key, size: nat): State
    requires Listed(s) && k in s.pieces && size > 0
  {
    var p := s.pieces[k];
    if p.cacheState == VOLATILE_READ_LRU then Remove(s, k)
    else if p.cacheState != READ_LRU1 && p.cacheState != READ_LRU2 then s
    else
      TrimKeeps(s, p.cacheState + 1, size, k);
      Move(Trim(s, p.cacheState + 1, size), k, p, p.cacheState + 1)
  }

  lemma {:induction false} TrimKeeps(s: State, g: nat, size: nat, k: Key)
    requires Listed(s) && g < NUM_LRUS && size > 0
    requires k in s.pieces && s.pieces[k].cacheState != g
    ensures var t := Trim(s, g, size);
      && Listed(t) && k in t.pieces && t.pieces[k] == s.pieces[k]
      && |t.lru[g]| < size && t.lastOp == s.lastOp
    decreases |s.lru[g]|
  {
    if |s.lru[g]| >= size {
      var oldest := s.lru[g][0];
      assert oldest in s.lru[g];
      RemoveKeepsListed(s, oldest);
      TrimKeeps(Remove(s, oldest), g, size, k);
    }
  }

  lemma RemoveOldest(s: State, g: nat)
    requires Inv(s) && g < NUM_LRUS && s.lru[g] != []
    ensures var k := s.lru[g][0];
      && k in s.pieces && s.pieces[k].cacheState == g
      && Inv(Remove(s, k)) && Remove(s, k).lru == s.lru[g := s.lru[g][1..]]
  {
    assert s.lru[g][0] in s.lru[g];
    RemoveKeepsInv(s, s.lru[g][0]);
  }

  /** Trimming removes pieces of the list and nothing else. */
  lemma {:induction false} TrimKeepsInv(s: State, g: nat, size: nat)
    requires Inv(s) && g < NUM_LRUS && size > 0
    ensures var t := Trim(s, g, size);
      && Inv(t) && t.lastOp == s.lastOp
      && (forall k :: k in t.pieces ==> k in s.pieces && t.pieces[k] == s.pieces[k])
      && (forall k :: k in s.pieces && k !in t.pieces ==> s.pieces[k].cacheState == g)
    decreases |s.lru[g]|
  {
    if |s.lru[g]| >= size {
      RemoveOldest(s, g);
      TrimKeepsInv(Remove(s, s.lru[g][0]), g, size);
    }
  }

  /** The last size - 1 elements. */
  function Newest(q: seq<Key>, size: nat): (r: seq<Key>)
    requires size > 0
    ensures |r| <= size - 1 || |q| < size
  {
    if |q| < size then q else q[|q| - size + 1..]
  }

  lemma NewestOfTail(q: seq<Key>, size: nat)
    requires |q| >= size > 0
    ensures Newest(q[1..], size) == Newest(q, size)
  {
    if |q| == size {
      assert q[1..] == q[|q| - size + 1..];
    } else {
      assert q[1..][|q| - size..] == q[|q| - size + 1..];
    }
  }

  /** Trimming keeps the size - 1 pieces that were put there last, in their order. */
  lemma {:induction false} TrimKeepsNewest(s: State, g: nat, size: nat)
    requires Inv(s) && g < NUM_LRUS && size > 0
    ensures Trim(s, g, size).lru == s.lru[g := Newest(s.lru[g], size)]
    decreases |s.lru[g]|
  {
    if |s.lru[g]| >= size {
      RemoveOldest(s, g);
      var t := Remove(s, s.lru[g][0]);
      TrimKeepsNewest(t, g, size);
      NewestOfTail(s.lru[g], size);
      UpdateTwice(s.lru, g, s.lru[g][1..], Newest(s.lru[g], size));
    }
  }

  lemma UpdateTwice(lru: seq<seq<Key>>, g: nat, a: seq<Key>, b: seq<Key>)
    requires g < |lru|
    ensures lru[g := a][g := b] == lru[g := b]
  {
  }

  lemma MoveToGhostKeepsInv(s: State, k: Key, size: nat)
    requires Inv(s) && k in s.pieces && size > 0
    requires s.pieces[k].numBlocks == 0 && OkToEvict(s.pieces[k], false)
    ensures Inv(MoveToGhost(s, k, size))
  {
    var p := s.pieces[k];
    if p.cacheState == VOLATILE_READ_LRU {
      RemoveKeepsInv(s, k);
    } else if p.cacheState == READ_LRU1 || p.cacheState == READ_LRU2 {
      var g := p.cacheState + 1;
      TrimKeeps(s, g, size, k);
      TrimKeepsInv(s, g, size);
      GhostIsOk(p, g);
      MoveKeepsInv(Trim(s, g, size), k, p, g);
    }
  }

  lemma GhostIsOk(p: Piece, g: nat)
    requires PieceOk(p) && p.numBlocks == 0 && OkToEvict(p, false) && IsGhost(g)
    ensures PieceOk(p.(cacheState := g))
  {
    SumOfKinds(p.blocks);
  }

  /** What evict_piece() leaves behind, whether the piece was given up, and the jobs that
      hung off it. */
  datatype Eviction = Eviction(state: State, evicted: bool, jobs: seq<Job>)

  function EvictPiece(s: State, k: Key, allowGhost: bool, size: nat): Eviction
    requires Listed(s) && k in s.pieces && size > 0
  {
    var p := s.pieces[k];
    var left := Recount(p, MapBlocks(p.blocks, DropUnreferenced));
    if OkToEvict(left, true) && left.numBlocks == 0 then
      var t := Put(s, k, left.(hash := None, jobs := []));
      Eviction(if allowGhost && IsGhost(p.cacheState) then t
               else if !allowGhost || p.cacheState == WRITE_LRU || p.cacheState == VOLATILE_READ_LRU
               then Remove(t, k)
               else MoveToGhost(t, k, size),
               true, p.jobs)
    else Eviction(Put(s, k, left), false, [])
  }

  lemma EvictKeepsInv(s: State, k: Key, allowGhost: bool, size: nat)
    requires Inv(s) && k in s.pieces && size > 0
    ensures Inv(EvictPiece(s, k, allowGhost, size).state)
  {
    var p := s.pieces[k];
    var left := Recount(p, MapBlocks(p.blocks, DropUnreferenced));
    MapKeepsPieceOk(p, DropUnreferenced);
    if OkToEvict(left, true) && left.numBlocks == 0 {
      var emptied := left.(hash := None, jobs := []);
      var t := Put(s, k, emptied);
      PutKeepsInv(s, k, emptied);
      if allowGhost && IsGhost(p.cacheState) {
      } else if !allowGhost || p.cacheState == WRITE_LRU || p.cacheState == VOLATILE_READ_LRU {
        RemoveKeepsInv(t, k);
      } else {
        MoveToGhostKeepsInv(t, k, size);
      }
    } else {
      PutKeepsInv(s, k, left);
    }
  }

  /** The test of maybe_free_piece(). */
  predicate Freeable(p: Piece) {
    OkToEvict(p, false) && p.markedForEviction && p.jobs == []
  }

  function MaybeFreePiece(s: State, k: Key, size: nat): State
    requires Listed(s) && k in s.pieces && size > 0
  {
    if Freeable(s.pieces[k]) then EvictPiece(s, k, !s.pieces[k].markedForDeletion, size).state else s
  }

  /** When maybe_free_piece() evicts a piece, the eviction succeeds and no job is left. */
  lemma FreeablePieceIsEvicted(s: State, k: Key, allowGhost: bool, size: nat)
    requires Inv(s) && k in s.pieces && size > 0 && Freeable(s.pieces[k])
    ensures var e := EvictPiece(s, k, allowGhost, size); e.evicted && e.jobs == []
    ensures !allowGhost ==> k !in EvictPiece(s, k, allowGhost, size).state.pieces
  {
    var p := s.pieces[k];
    UnreferencedIsEmptied(p.blocks);
    MapShrinks(p.blocks, DropUnreferenced, Refs);
  }

  lemma MaybeFreeKeepsInv(s: State, k: Key, size: nat)
    requires Inv(s) && k in s.pieces && size > 0
    ensures Inv(MaybeFreePiece(s, k, size))
  {
    if Freeable(s.pieces[k]) {
      EvictKeepsInv(s, k, !s.pieces[k].markedForDeletion, size);
    }
  }

  /** reclaim_block(). */
  function Reclaim(s: State, k: Key, i: nat, size: nat): State
    requires Inv(s) && HasBlock(s, k, i) && s.pieces[k].blocks[i].reading > 0 && size > 0
  {
    assert BlockOk(s.pieces[k].blocks[i]);
    DecRefKeepsInv(s, k, i, RefReading);
    MaybeFreePiece(DecRef(s, k, i, RefReading), k, size)
  }

  function MarkForEviction(s: State, k: Key, allowGhost: bool, size: nat): State
    requires Listed(s) && k in s.pieces && size > 0
  {
    var e := EvictPiece(s, k, allowGhost, size);
    if e.evicted then e.state
    else Put(e.state, k, e.state.pieces[k].(markedForEviction := true, markedForDeletion := !allowGhost))
  }

  lemma MarkKeepsInv(s: State, k: Key, allowGhost: bool, size: nat)
    requires Inv(s) && k in s.pieces && size > 0
    ensures Inv(MarkForEviction(s, k, allowGhost, size))
  {
    EvictKeepsInv(s, k, allowGhost, size);
    var e := EvictPiece(s, k, allowGhost, size);
    if !e.evicted {
      PutKeepsInv(e.state, k, e.state.pieces[k].(markedForEviction := true, markedForDeletion := !allowGhost));
    }
  }

  function AbortDirty(s: State, k: Key): State
    requires Listed(s) && k in s.pieces
  {
    var p := s.pieces[k];
    UpdateCacheState(Put(s, k, Recount(p, MapBlocks(p.blocks, DropDirty))), k)
  }

  lemma AbortKeepsInv(s: State, k: Key)
    requires Inv(s) && k in s.pieces
    ensures Inv(AbortDirty(s, k))
  {
    var p := s.pieces[k];
    var left := Recount(p, MapBlocks(p.blocks, DropDirty));
    MapKeepsPieceOk(p, DropDirty);
    PutKeepsInv(s, k, left);
    UpdateKeepsInv(Put(s, k, left), k);
  }
}
