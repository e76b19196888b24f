/** The block cache as block_cache.cpp has it: the pieces, the lists and the counters, each
    changed in place. Valid() is check_invariant(); every method says which of the state
    changes of CacheOps.dfy and CacheFill.dfy it is. */
module BlockCache {
  import opened Options
  import opened CacheModel
  import opened CacheOps
  import opened CacheFill

  /** What replacing one block changes in the counts of a piece. */
  lemma CountStep(bs: seq<Block>, i: nat, b: Block)
    requires i < |bs|
    ensures Sum(bs[i := b], Cached) + Weigh(bs[i], Cached) == Sum(bs, Cached) + Weigh(b, Cached)
    ensures Sum(bs[i := b], Dirty) + Weigh(bs[i], Dirty) == Sum(bs, Dirty) + Weigh(b, Dirty)
    ensures Sum(bs[i := b], Clean) + Weigh(bs[i], Clean) == Sum(bs, Clean) + Weigh(b, Clean)
    ensures Sum(bs[i := b], Refs) + Weigh(bs[i], Refs) == Sum(bs, Refs) + Weigh(b, Refs)
    ensures Sum(bs[i := b], Pinned) + Weigh(bs[i], Pinned) == Sum(bs, Pinned) + Weigh(b, Pinned)
    ensures Weigh(bs[i], Cached) <= Sum(bs, Cached) && Weigh(bs[i], Dirty) <= Sum(bs, Dirty)
    ensures Weigh(bs[i], Refs) <= Sum(bs, Refs) && Weigh(bs[i], Pinned) <= Sum(bs, Pinned)
  {
    hide Sum;
    SumUpdate(bs, i, b, Cached);
    SumUpdate(bs, i, b, Dirty);
    SumUpdate(bs, i, b, Clean);
    SumUpdate(bs, i, b, Refs);
    SumUpdate(bs, i, b, Pinned);
    SumAtLeast(bs, i, Cached);
    SumAtLeast(bs, i, Dirty);
    SumAtLeast(bs, i, Refs);
    SumAtLeast(bs, i, Pinned);
  }

  /** A reference that is taken. */
  lemma ReferencedWeighs(b: Block, reason: Reason)
    requires b.buf.Some?
    ensures var r := Referenced(b, reason);
      && Weigh(r, Refs) == Weigh(b, Refs) + 1
      && Weigh(r, Pinned) == Weigh(b, Pinned) + (if b.refcount == 0 then 1 else 0)
      && Weigh(r, Cached) == Weigh(b, Cached) && Weigh(r, Dirty) == Weigh(b, Dirty) && Weigh(r, Clean) == Weigh(b, Clean)
  {
  }

  /** A reference that is given back. */
  lemma ReleasedWeighs(b: Block, reason: Reason)
    requires b.refcount > 0 && Count(b, reason) > 0 && b.buf.Some?
    ensures var r := Released(b, reason);
      && r.refcount == b.refcount - 1
      && Weigh(r, Refs) + 1 == Weigh(b, Refs)
      && Weigh(r, Pinned) + (if b.refcount == 1 then 1 else 0) == Weigh(b, Pinned)
  {
  }

  /** The first i blocks of a piece were changed, the others not yet. */
  ghost predicate Partly(bs: seq<Block>, now: seq<Block>, c: Change, i: nat) {
    && |now| == |bs|
    && (forall j :: 0 <= j < i && j < |bs| ==> now[j] == Apply(c, bs[j]))
    && (forall j :: i <= j < |bs| ==> now[j] == bs[j])
  }

  lemma PartlyNone(bs: seq<Block>, c: Change)
    ensures Partly(bs, bs, c, 0)
  {
  }

  lemma PartlyNext(bs: seq<Block>, now: seq<Block>, c: Change, i: nat)
    requires Partly(bs, now, c, i) && i < |bs|
    ensures now[i] == bs[i]
    ensures Drops(c, bs[i]) ==> Partly(bs, now[i := Emptied(now[i])], c, i + 1)
    ensures !Drops(c, bs[i]) ==> Partly(bs, now, c, i + 1)
  {
  }

  lemma PartlyAll(bs: seq<Block>, now: seq<Block>, c: Change)
    requires Partly(bs, now, c, |bs|)
    ensures now == MapBlocks(bs, c)
  {
    hide MapBlocks;
  }

  /** A piece without buffers has nothing that could still be dropped. */
  lemma NothingLeft(bs: seq<Block>, now: seq<Block>, c: Change, i: nat)
    requires Partly(bs, now, c, i) && Sum(now, Cached) == 0
    ensures Partly(bs, now, c, |bs|)
  {
    SumIsZero(now, Cached);
    forall j | i <= j < |bs|
      ensures now[j] == Apply(c, bs[j])
    {
      assert Weigh(now[j], Cached) == 0;
    }
  }

  class Cache {
    var pieces: map<Key, Piece>
    var lru: seq<seq<Key>>
    var lastCacheOp: CacheOp
    var readCacheSize: int
    var writeCacheSize: int
    var pinnedBlocks: int
    var ghostSize: nat

    constructor ()
      ensures Valid()
      ensures pieces == map[] && ghostSize == 8
    {
      pieces, lru, lastCacheOp := map[], [[], [], [], [], [], [], []], CacheMiss;
      readCacheSize, writeCacheSize, pinnedBlocks, ghostSize := 0, 0, 0, 8;
    }

    ghost function View(): State
      reads this
    {
      State(pieces, lru, lastCacheOp)
    }

    ghost function CurrentSizes(): Sizes
      reads this
    {
      Sizes(readCacheSize, writeCacheSize, pinnedBlocks)
    }

    /** The lists and the counters are right. */
    ghost predicate Balanced()
      reads this
    {
      && Listed(View())
      && (forall k :: k in pieces ==> Counted(pieces[k]))
      && CurrentSizes() == TotalSizes(pieces)
      && ghostSize > 0
    }

    ghost predicate Valid()
      reads this
    {
      Inv(View()) && CurrentSizes() == TotalSizes(pieces) && ghostSize > 0
    }

    // ----- references -----

    /** Writes back the record of a piece of which blocks were changed. */
    method Store(k: Key, p: Piece, ghost s: State)
      requires k in pieces && ghostSize > 0 && s == View() && Listed(s)
      requires forall x :: x in pieces ==> Counted(pieces[x])
      requires Counted(p) && p.cacheState == pieces[k].cacheState
      requires var a, b, t := PieceSizes(pieces[k].blocks), PieceSizes(p.blocks), TotalSizes(pieces);
        && readCacheSize == t.read - a.read + b.read
        && writeCacheSize == t.write - a.write + b.write
        && pinnedBlocks == t.pinned - a.pinned + b.pinned
      modifies this`pieces
      ensures Balanced() && View() == Put(s, k, p)
      ensures Inv(s) && PieceOk(p) ==> Valid()
    {
      hide Sum, Total;
      SizesUpdate(pieces, k, p);
      pieces := pieces[k := p];
    }

    /** Takes or gives back a reference to a block in the record of its piece. */
    method Acquire(p: Piece, i: nat, reason: Reason) returns (r: Piece)
      requires Counted(p) && i < |p.blocks| && p.blocks[i].buf.Some?
      modifies this`pinnedBlocks
      ensures r == Recount(p, p.blocks[i := Referenced(p.blocks[i], reason)])
      ensures Sum(r.blocks, Dirty) == Sum(p.blocks, Dirty) && Sum(r.blocks, Clean) == Sum(p.blocks, Clean)
      ensures pinnedBlocks - Sum(r.blocks, Pinned) == old(pinnedBlocks) - Sum(p.blocks, Pinned)
    {
      hide Sum, Total, Weigh, Referenced;
      var b := p.blocks[i];
      CountStep(p.blocks, i, Referenced(b, reason));
      ReferencedWeighs(b, reason);
      r := p.(blocks := p.blocks[i := Referenced(b, reason)], refcount := p.refcount + 1);
      if b.refcount == 0 {
        r := r.(pinned := r.pinned + 1);
        pinnedBlocks := pinnedBlocks + 1;
      }
    }

    /** Only the counters of references need to be right here. */
    method Release(p: Piece, i: nat, reason: Reason) returns (r: Piece)
      requires i < |p.blocks| && p.blocks[i].buf.Some? && Count(p.blocks[i], reason) > 0
      requires p.blocks[i].refcount > 0
      requires p.refcount == Sum(p.blocks, Refs) && p.pinned == Sum(p.blocks, Pinned)
      modifies this`pinnedBlocks
      ensures var bs := p.blocks[i := Released(p.blocks[i], reason)];
        && r == p.(blocks := bs, refcount := Sum(bs, Refs), pinned := Sum(bs, Pinned))
        && pinnedBlocks == old(pinnedBlocks) - p.pinned + r.pinned
    {
      hide Sum, Total, Weigh, Released;
      ReleasedWeighs(p.blocks[i], reason);
      var b := Released(p.blocks[i], reason);
      CountStep(p.blocks, i, b);
      r := p.(blocks := p.blocks[i := b], refcount := p.refcount - 1);
      if b.refcount == 0 {
        r := r.(pinned := r.pinned - 1);
        pinnedBlocks := pinnedBlocks - 1;
      }
    }

    /** False if the block has no buffer any more. */
    method IncBlockRefcount(k: Key, i: nat, reason: Reason) returns (ok: bool)
      requires Balanced() && HasBlock(View(), k, i)
      modifies this`pieces, this`pinnedBlocks
      ensures Balanced() && View() == IncRef(old(View()), k, i, reason)
      ensures ok <==> old(pieces[k].blocks[i].buf.Some?)
      ensures old(Valid()) && reason != RefFlushing ==> Valid()
    {
      hide Sum, Total;
      if pieces[k].blocks[i].buf.None? {
        return false;
      }
      ghost var s := View();
      var p := Acquire(pieces[k], i, reason);
      Store(k, p, s);
      ok := true;
      if old(Valid()) && reason != RefFlushing {
        IncRefKeepsInv(s, k, i, reason);
      }
    }

    method DecBlockRefcount(k: Key, i: nat, reason: Reason)
      requires Balanced() && HasBlock(View(), k, i)
      requires var b := pieces[k].blocks[i]; b.buf.Some? && b.refcount > 0 && Count(b, reason) > 0
      modifies this`pieces, this`pinnedBlocks
      ensures Balanced() && View() == DecRef(old(View()), k, i, reason)
      ensures old(Valid()) && reason != RefFlushing ==> Valid()
    {
      hide Sum, Total;
      ghost var s := View();
      CountStep(pieces[k].blocks, i, Released(pieces[k].blocks[i], reason));
      var p := Release(pieces[k], i, reason);
      Store(k, p, s);
      if old(Valid()) && reason != RefFlushing {
        DecRefKeepsInv(s, k, i, reason);
      }
    }

    // ----- lists -----

    /** Takes a piece out of its list and appends it to list q. */
    method MoveTo(k: Key, q: nat)
      requires Valid() && k in pieces && q < NUM_LRUS && PieceOk(pieces[k].(cacheState := q))
      modifies this`pieces, this`lru
      ensures Valid() && View() == Move(old(View()), k, old(pieces)[k], q)
    {
      hide Sum, Total;
      ghost var was := pieces;
      MoveKeepsInv(View(), k, pieces[k], q);
      var p := pieces[k];
      lru := lru[p.cacheState := Without(lru[p.cacheState], k)];
      lru := lru[q := lru[q] + [k]];
      p := p.(cacheState := q);
      SizesUpdate(was, k, p);
      pieces := pieces[k := p];
    }

    method UpdateCacheState(k: Key)
      requires Valid() && k in pieces
      modifies this`pieces, this`lru
      ensures Valid() && View() == CacheOps.UpdateCacheState(old(View()), k)
    {
      hide Sum, Total;
      var p := pieces[k];
      var desired := p.cacheState;
      if p.numDirty > 0 || p.hash.Some? {
        desired := WRITE_LRU;
      } else if p.cacheState == WRITE_LRU {
        desired := READ_LRU1;
      }
      if desired == p.cacheState {
        return;
      }
      MoveTo(k, desired);
    }

    method CacheHit(k: Key, block: nat, volatileRead: bool)
      requires Valid() && HasBlock(View(), k, block)
      modifies this`pieces, this`lru, this`lastCacheOp
      ensures Valid() && View() == CacheOps.CacheHit(old(View()), k, block)
    {
      hide Sum, Total;
      var p := pieces[k];
      var target := READ_LRU2;
      if !p.blocks[block].hit {
        if p.cacheState == READ_LRU1 || p.cacheState == READ_LRU2
           || p.cacheState == WRITE_LRU || p.cacheState == VOLATILE_READ_LRU {
          return;
        }
        if p.cacheState == READ_LRU1_GHOST {
          target := READ_LRU1;
        }
      }
      if p.cacheState == VOLATILE_READ_LRU {
        if volatileRead {
          return;
        }
        target := READ_LRU1;
      }
      if p.cacheState < READ_LRU1 || p.cacheState > READ_LRU2_GHOST {
        return;
      }
      if p.cacheState == READ_LRU1_GHOST {
        lastCacheOp := GhostHitLru1;
      } else if p.cacheState == READ_LRU2_GHOST {
        lastCacheOp := GhostHitLru2;
      }
      MoveTo(k, target);
    }

    // ----- allocating and freeing pieces -----

    /** A new piece has empty blocks. */
    method NewEntry(k: Key, blocksInPiece: nat, cacheState: nat)
      requires Valid() && k !in pieces && WRITE_LRU <= cacheState < NUM_LRUS && !IsGhost(cacheState)
      modifies this`pieces, this`lru
      ensures Valid() && View() == Add(old(View()), k, NewPiece(blocksInPiece, cacheState))
    {
      hide Sum, Total;
      var p := NewPiece(blocksInPiece, cacheState);
      NewSizes(pieces, k, blocksInPiece, cacheState);
      NewPieceOk(blocksInPiece, cacheState);
      AddKeepsInv(View(), k, p);
      pieces := pieces[k := p];
      lru := lru[cacheState := lru[cacheState] + [k]];
    }

    /** The piece is wanted again, and in no later list than cacheState. */
    method Retain(k: Key, cacheState: nat)
      requires Valid() && k in pieces && WRITE_LRU <= cacheState < NUM_LRUS && !IsGhost(cacheState)
      modifies this`pieces, this`lru
      ensures Valid() && View() == CacheOps.AllocatePiece(old(View()), k, 0, cacheState)
    {
      hide Sum, Total, Listed, PieceOk, Counted;
      ghost var was := View();
      EveryPieceCounted();
      var p := pieces[k].(markedForEviction := false);
      WantedIsOk(pieces[k], cacheState);
      PutKeepsInv(was, k, p);
      Store(k, p, was);
      if p.cacheState > cacheState {
        MoveTo(k, cacheState);
        assert was.pieces[k := p][k := p.(cacheState := cacheState)] == was.pieces[k := p.(cacheState := cacheState)];
      }
    }

    lemma EveryPieceCounted()
      requires Valid()
      ensures Listed(View()) && forall x :: x in pieces ==> PieceOk(pieces[x]) && Counted(pieces[x])
    {
      hide Sum, Total, Listed;
    }

    static lemma WantedIsOk(p: Piece, cacheState: nat)
      requires PieceOk(p) && WRITE_LRU <= cacheState < NUM_LRUS && !IsGhost(cacheState)
      ensures var r := p.(markedForEviction := false);
        PieceOk(r) && Counted(r) && (p.cacheState > cacheState ==> PieceOk(r.(cacheState := cacheState)))
    {
      hide Sum;
    }

    method AllocatePiece(k: Key, blocksInPiece: nat, cacheState: nat)
      requires Valid() && WRITE_LRU <= cacheState < NUM_LRUS && !IsGhost(cacheState)
      modifies this`pieces, this`lru, this`lastCacheOp
      ensures Valid() && View() == CacheOps.AllocatePiece(old(View()), k, blocksInPiece, cacheState)
    {
      hide Sum, Total, Listed, PieceOk;
      if k !in pieces {
        NewEntry(k, blocksInPiece, cacheState);
        if cacheState == READ_LRU1 {
          OpKeepsInv(View(), CacheMiss);
          lastCacheOp := CacheMiss;
        }
      } else {
        Retain(k, cacheState);
      }
    }

    static lemma OpKeepsInv(s: State, op: CacheOp)
      requires Inv(s)
      ensures Inv(s.(lastOp := op))
    {
    }

    static lemma NewSizes(pieces: map<Key, Piece>, k: Key, n: nat, cacheState: nat)
      requires k !in pieces
      ensures TotalSizes(pieces[k := NewPiece(n, cacheState)]) == TotalSizes(pieces)
    {
      hide Sum, Total;
      EmptySums(n, Clean);
      EmptySums(n, Dirty);
      EmptySums(n, Pinned);
      TotalAdd(pieces, k, NewPiece(n, cacheState), Clean);
      TotalAdd(pieces, k, NewPiece(n, cacheState), Dirty);
      TotalAdd(pieces, k, NewPiece(n, cacheState), Pinned);
    }

    static lemma NoBlocksNoSizes(p: Piece)
      requires PieceOk(p) && p.numBlocks == 0
      ensures PieceSizes(p.blocks) == Sizes(0, 0, 0)
    {
      hide Sum, Total;
      SumOfKinds(p.blocks);
      SumIsZero(p.blocks, Cached);
      forall i | 0 <= i < |p.blocks|
        ensures Weigh(p.blocks[i], Pinned) == 0
      {
        assert Weigh(p.blocks[i], Cached) == 0;
      }
      ZeroSum(p.blocks, Pinned);
    }

    /** A piece that is erased is not in use and has no blocks. */
    method ErasePiece(k: Key)
      requires Valid() && k in pieces && OkToEvict(pieces[k], false) && pieces[k].numBlocks == 0
      modifies this`pieces, this`lru
      ensures Valid() && View() == Remove(old(View()), k)
    {
      hide Sum, Total;
      RemoveKeepsInv(View(), k);
      NoBlocksNoSizes(pieces[k]);
      SizesRemove(pieces, k);
      var q := pieces[k].cacheState;
      lru := lru[q := Without(lru[q], k)];
      pieces := pieces - {k};
    }

    /** The loop of move_to_ghost() that makes room in a ghost list. */
    method TrimGhosts(g: nat)
      requires Valid() && IsGhost(g)
      modifies this`pieces, this`lru
      ensures Valid() && View() == Trim(old(View()), g, ghostSize)
      ensures |lru[g]| < ghostSize
    {
      hide Sum, Total;
      while |lru[g]| >= ghostSize
        invariant Valid()
        invariant Trim(View(), g, ghostSize) == Trim(old(View()), g, ghostSize)
        decreases |lru[g]|
      {
        var p := lru[g][0];
        assert p in lru[g];
        RemoveKeepsListed(View(), p);
        ErasePiece(p);
      }
    }

    /** Afterwards a ghost list is no longer than ghostSize. */
    method MoveToGhost(k: Key)
      requires Valid() && k in pieces && pieces[k].numBlocks == 0 && OkToEvict(pieces[k], false)
      modifies this`pieces, this`lru
      ensures Valid() && View() == CacheOps.MoveToGhost(old(View()), k, ghostSize)
      ensures old(pieces[k].cacheState) in {READ_LRU1, READ_LRU2} ==>
        |lru[old(pieces[k].cacheState) + 1]| <= ghostSize
    {
      hide Sum, Total;
      var p := pieces[k];
      if p.cacheState == VOLATILE_READ_LRU {
        ErasePiece(k);
        return;
      }
      if p.cacheState != READ_LRU1 && p.cacheState != READ_LRU2 {
        return;
      }
      var ghosts := p.cacheState + 1;
      TrimKeeps(View(), ghosts, ghostSize, k);
      TrimGhosts(ghosts);
      GhostIsOk(p, ghosts);
      MoveTo(k, ghosts);
    }

    // ----- eviction of one piece -----

    /** The loop of evict_piece(): the buffers nobody refers to are freed, dirty or not. */
    method FreeUnreferenced(p0: Piece) returns (p: Piece)
      requires Counted(p0) && BlocksOk(p0.blocks)
      modifies this`readCacheSize, this`writeCacheSize
      ensures p == Recount(p0, MapBlocks(p0.blocks, DropUnreferenced))
      ensures readCacheSize - Sum(p.blocks, Clean) == old(readCacheSize) - Sum(p0.blocks, Clean)
      ensures writeCacheSize - Sum(p.blocks, Dirty) == old(writeCacheSize) - Sum(p0.blocks, Dirty)
      ensures Sum(p.blocks, Pinned) == Sum(p0.blocks, Pinned)
    {
      hide Sum, Total, Partly, MapBlocks, Apply;
      PartlyNone(p0.blocks, DropUnreferenced);
      p := p0;
      var i := 0;
      while i < |p.blocks|
        invariant 0 <= i <= |p.blocks| == |p0.blocks|
        invariant p == Recount(p0, p.blocks) && Partly(p0.blocks, p.blocks, DropUnreferenced, i)
        invariant readCacheSize - Sum(p.blocks, Clean) == old(readCacheSize) - Sum(p0.blocks, Clean)
        invariant writeCacheSize - Sum(p.blocks, Dirty) == old(writeCacheSize) - Sum(p0.blocks, Dirty)
        invariant Sum(p.blocks, Pinned) == Sum(p0.blocks, Pinned)
      {
        PartlyNext(p0.blocks, p.blocks, DropUnreferenced, i);
        if p.blocks[i].buf.Some? && p.blocks[i].refcount == 0 {
          p := FreeOne(p, i);
          if p.numBlocks == 0 {
            NothingLeft(p0.blocks, p.blocks, DropUnreferenced, i + 1);
            break;
          }
        }
        i := i + 1;
      }
      PartlyAll(p0.blocks, p.blocks, DropUnreferenced);
    }

    /** Frees the buffer of one block of a record and counts it out. */
    method FreeOne(p: Piece, i: nat) returns (r: Piece)
      requires Counted(p) && i < |p.blocks|
      requires p.blocks[i].buf.Some? && p.blocks[i].refcount == 0
      modifies this`readCacheSize, this`writeCacheSize
      ensures r == Recount(p, p.blocks[i := Emptied(p.blocks[i])])
      ensures readCacheSize - Sum(r.blocks, Clean) == old(readCacheSize) - Sum(p.blocks, Clean)
      ensures writeCacheSize - Sum(r.blocks, Dirty) == old(writeCacheSize) - Sum(p.blocks, Dirty)
      ensures Sum(r.blocks, Pinned) == Sum(p.blocks, Pinned)
    {
      hide Sum, Total;
      var b := p.blocks[i];
      CountStep(p.blocks, i, Emptied(b));
      r := p.(blocks := p.blocks[i := Emptied(b)], numBlocks := p.numBlocks - 1);
      if b.dirty {
        r := r.(numDirty := r.numDirty - 1);
        writeCacheSize := writeCacheSize - 1;
      } else {
        readCacheSize := readCacheSize - 1;
      }
    }

    /** The piece is given up if nothing of it is in use; its jobs go to the caller. */
    method EvictPiece(k: Key, allowGhost: bool, jobs: seq<Job>) returns (evicted: bool, jobs': seq<Job>)
      requires Valid() && k in pieces
      modifies this`pieces, this`lru, this`readCacheSize, this`writeCacheSize
      ensures Valid()
      ensures var e := CacheOps.EvictPiece(old(View()), k, allowGhost, ghostSize);
        View() == e.state && evicted == e.evicted && jobs' == jobs + e.jobs
    {
      hide Sum, Total;
      ghost var s := View();
      EvictKeepsInv(s, k, allowGhost, ghostSize);
      MapKeepsPieceOk(pieces[k], DropUnreferenced);
      var p := FreeUnreferenced(pieces[k]);
      if OkToEvict(p, true) && p.numBlocks == 0 {
        jobs' := jobs + p.jobs;
        p := p.(hash := None, jobs := []);
        Store(k, p, s);
        evicted := true;
        if allowGhost && IsGhost(p.cacheState) {
          return;
        }
        if !allowGhost || p.cacheState == WRITE_LRU || p.cacheState == VOLATILE_READ_LRU {
          ErasePiece(k);
        } else {
          MoveToGhost(k);
        }
      } else {
        Store(k, p, s);
        evicted, jobs' := false, jobs;
      }
    }

    method MaybeFreePiece(k: Key) returns (freed: bool)
      requires Valid() && k in pieces
      modifies this`pieces, this`lru, this`readCacheSize, this`writeCacheSize
      ensures Valid() && View() == CacheOps.MaybeFreePiece(old(View()), k, ghostSize)
      ensures freed <==> Freeable(old(pieces)[k])
    {
      hide Sum, Total;
      var p := pieces[k];
      if !OkToEvict(p, false) || !p.markedForEviction || p.jobs != [] {
        return false;
      }
      FreeablePieceIsEvicted(View(), k, !p.markedForDeletion, ghostSize);
      var removed, jobs := EvictPiece(k, !p.markedForDeletion, []);
      assert removed && jobs == [];
      return true;
    }

    /** No job may hang off the piece. */
    method MarkForEviction(k: Key, allowGhost: bool)
      requires Valid() && k in pieces && pieces[k].jobs == []
      modifies this`pieces, this`lru, this`readCacheSize, this`writeCacheSize
      ensures Valid() && View() == CacheOps.MarkForEviction(old(View()), k, allowGhost, ghostSize)
    {
      hide Sum, Total;
      ghost var s := View();
      var evicted, _ := EvictPiece(k, allowGhost, []);
      if !evicted {
        MarkKeepsInv(s, k, allowGhost, ghostSize);
        SizesUpdate(pieces, k, pieces[k].(markedForEviction := true, markedForDeletion := !allowGhost));
        pieces := pieces[k := pieces[k].(markedForEviction := true, markedForDeletion := !allowGhost)];
      }
    }

    // ----- dirty blocks -----

    /** The loop of abort_dirty(). */
    method FreeDirty(p0: Piece) returns (p: Piece)
      requires Counted(p0) && BlocksOk(p0.blocks)
      modifies this`readCacheSize, this`writeCacheSize
      ensures p == Recount(p0, MapBlocks(p0.blocks, DropDirty))
      ensures readCacheSize - Sum(p.blocks, Clean) == old(readCacheSize) - Sum(p0.blocks, Clean)
      ensures writeCacheSize - Sum(p.blocks, Dirty) == old(writeCacheSize) - Sum(p0.blocks, Dirty)
      ensures Sum(p.blocks, Pinned) == Sum(p0.blocks, Pinned)
    {
      hide Sum, Total, Partly, MapBlocks, Apply;
      PartlyNone(p0.blocks, DropDirty);
      p := p0;
      for i := 0 to |p0.blocks|
        invariant |p.blocks| == |p0.blocks|
        invariant p == Recount(p0, p.blocks) && Partly(p0.blocks, p.blocks, DropDirty, i)
        invariant readCacheSize - Sum(p.blocks, Clean) == old(readCacheSize) - Sum(p0.blocks, Clean)
        invariant writeCacheSize - Sum(p.blocks, Dirty) == old(writeCacheSize) - Sum(p0.blocks, Dirty)
        invariant Sum(p.blocks, Pinned) == Sum(p0.blocks, Pinned)
      {
        PartlyNext(p0.blocks, p.blocks, DropDirty, i);
        var b := p.blocks[i];
        if b.dirty && b.refcount == 0 && b.buf.Some? {
          p := FreeOne(p, i);
        }
      }
      PartlyAll(p0.blocks, p.blocks, DropDirty);
    }

    method AbortDirty(k: Key)
      requires Valid() && k in pieces
      modifies this`pieces, this`lru, this`readCacheSize, this`writeCacheSize
      ensures Valid() && View() == CacheOps.AbortDirty(old(View()), k)
    {
      hide Sum, Total;
      ghost var s := View();
      MapKeepsPieceOk(pieces[k], DropDirty);
      var p := FreeDirty(pieces[k]);
      Store(k, p, s);
      UpdateCacheState(k);
    }

    method FreeBlock(k: Key, i: nat)
      requires Valid() && HasBlock(View(), k, i)
      requires pieces[k].blocks[i].buf.Some? && pieces[k].blocks[i].refcount == 0
      modifies this`pieces, this`readCacheSize, this`writeCacheSize
      ensures Valid() && View() == PutBlock(old(View()), k, i, Emptied(old(pieces)[k].blocks[i]))
    {
      hide Sum, Total;
      ghost var s := View();
      assert BlockOk(pieces[k].blocks[i]);
      PutBlockKeepsInv(s, k, i, Emptied(pieces[k].blocks[i]));
      var p := FreeOne(pieces[k], i);
      assert p == PutBlock(s, k, i, Emptied(s.pieces[k].blocks[i])).pieces[k];
      Store(k, p, s);
    }

    /** The loop of blocks_flushed(): the counters of dirty blocks are adjusted behind it. */
    method ReleaseFlushed(p0: Piece, flushed: seq<nat>) returns (p: Piece)
      requires Counted(p0) && BlocksOk(p0.blocks) && FlushedOk(p0.blocks, flushed)
      modifies this`pinnedBlocks
      ensures |flushed| <= p0.numDirty
      ensures p.(numDirty := p0.numDirty - |flushed|) == Recount(p0, FlushIn(p0.blocks, flushed))
      ensures p.numDirty == p0.numDirty
      ensures Sum(p.blocks, Clean) == Sum(p0.blocks, Clean) + |flushed|
      ensures pinnedBlocks == old(pinnedBlocks) - p0.pinned + p.pinned
    {
      hide Sum, Total;
      p := p0;
      for n := 0 to |flushed|
        invariant |p.blocks| == |p0.blocks|
        invariant p == p0.(blocks := p.blocks, refcount := Sum(p.blocks, Refs), pinned := Sum(p.blocks, Pinned))
        invariant p.blocks == FlushIn(p0.blocks, flushed[..n])
        invariant n + Sum(p.blocks, Dirty) == Sum(p0.blocks, Dirty)
        invariant Sum(p.blocks, Clean) == Sum(p0.blocks, Clean) + n
        invariant Sum(p.blocks, Cached) == Sum(p0.blocks, Cached)
        invariant pinnedBlocks == old(pinnedBlocks) - p0.pinned + p.pinned
      {
        var i := flushed[n];
        assert i !in flushed[..n] && BlockOk(p0.blocks[i]);
        p := FlushOne(p, i);
        NextFlushed(p0.blocks, flushed, n);
      }
      assert flushed[..|flushed|] == flushed;
    }

    static lemma NextFlushed(bs: seq<Block>, flushed: seq<nat>, n: nat)
      requires n < |flushed| && flushed[n] < |bs| && flushed[n] !in flushed[..n]
      ensures FlushIn(bs, flushed[..n])[flushed[n] := FlushDone(bs[flushed[n]])] == FlushIn(bs, flushed[..n + 1])
    {
      hide FlushIn, FlushDone;
      assert flushed[..n + 1] == flushed[..n] + [flushed[n]];
    }

    /** Marks one block as written and gives back the reference of the write. */
    method FlushOne(p: Piece, i: nat) returns (r: Piece)
      requires p.refcount == Sum(p.blocks, Refs) && p.pinned == Sum(p.blocks, Pinned)
      requires i < |p.blocks| && BlockOk(p.blocks[i]) && p.blocks[i].pending
      modifies this`pinnedBlocks
      ensures var bs := p.blocks[i := FlushDone(p.blocks[i])];
        && r == p.(blocks := bs, refcount := Sum(bs, Refs), pinned := Sum(bs, Pinned))
        && Sum(bs, Dirty) + 1 == Sum(p.blocks, Dirty)
        && Sum(bs, Clean) == Sum(p.blocks, Clean) + 1
        && Sum(bs, Cached) == Sum(p.blocks, Cached)
        && pinnedBlocks == old(pinnedBlocks) - p.pinned + r.pinned
    {
      hide Sum, Total;
      var b := p.blocks[i];
      CountStep(p.blocks, i, FlushDone(b));
      CountStep(p.blocks, i, b.(pending := false, dirty := false));
      r := p.(blocks := p.blocks[i := b.(pending := false, dirty := false)]);
      r := Release(r, i, RefFlushing);
      assert r.blocks == p.blocks[i := FlushDone(b)];
    }

    /** The written blocks move from the write to the read count. */
    method BlocksFlushed(k: Key, flushed: seq<nat>) returns (freed: bool)
      requires Valid() && k in pieces && FlushedOk(pieces[k].blocks, flushed)
      modifies this`pieces, this`lru, this`readCacheSize, this`writeCacheSize, this`pinnedBlocks
      ensures Valid() && View() == CacheFill.BlocksFlushed(old(View()), k, flushed, ghostSize)
      ensures freed <==> Freeable(Marked(old(View()), k, flushed).pieces[k])
    {
      hide Sum, Total, Listed, FlushIn;
      ghost var s := View();
      MarkedKeepsInv(s, k, flushed);
      FlushKeepsPieceOk(pieces[k], flushed);
      SumOfKinds(pieces[k].blocks);
      var p := ReleaseFlushed(pieces[k], flushed);
      writeCacheSize := writeCacheSize - |flushed|;
      readCacheSize := readCacheSize + |flushed|;
      p := p.(numDirty := p.numDirty - |flushed|);
      Store(k, p, s);
      UpdateCacheState(k);
      freed := MaybeFreePiece(k);
    }

    /** Gives a buffer to a block that has none. */
    method FillDirty(p: Piece, i: nat, data: Bytes) returns (r: Piece)
      requires Counted(p) && i < |p.blocks| && p.blocks[i].buf.None? && p.blocks[i].refcount == 0
      modifies this`writeCacheSize
      ensures r == Recount(p, p.blocks[i := Dirtied(p.blocks[i], data)])
      ensures Sum(r.blocks, Clean) == Sum(p.blocks, Clean) && Sum(r.blocks, Pinned) == Sum(p.blocks, Pinned)
      ensures writeCacheSize - Sum(r.blocks, Dirty) == old(writeCacheSize) - Sum(p.blocks, Dirty)
    {
      hide Sum, Total;
      var b := Dirtied(p.blocks[i], data);
      CountStep(p.blocks, i, b);
      r := p.(blocks := p.blocks[i := b], numBlocks := p.numBlocks + 1, numDirty := p.numDirty + 1);
      writeCacheSize := writeCacheSize + 1;
    }

    method FillClean(p: Piece, i: nat, data: Bytes) returns (r: Piece)
      requires Counted(p) && i < |p.blocks| && BlockOk(p.blocks[i]) && p.blocks[i].buf.None?
      modifies this`readCacheSize
      ensures r == Recount(p, p.blocks[i := p.blocks[i].(buf := Some(data))])
      ensures Sum(r.blocks, Dirty) == Sum(p.blocks, Dirty) && Sum(r.blocks, Pinned) == Sum(p.blocks, Pinned)
      ensures readCacheSize - Sum(r.blocks, Clean) == old(readCacheSize) - Sum(p.blocks, Clean)
    {
      hide Sum, Total;
      var b := p.blocks[i].(buf := Some(data));
      CountStep(p.blocks, i, b);
      r := p.(blocks := p.blocks[i := b], numBlocks := p.numBlocks + 1);
      readCacheSize := readCacheSize + 1;
    }

    /** The record of the piece gets the new buffer and the job that waits for it. */
    method AddDirty(p0: Piece, i: nat, data: Bytes, job: nat, addHasher: bool) returns (p: Piece)
      requires Counted(p0) && i < |p0.blocks| && BlockOk(p0.blocks[i]) && p0.blocks[i].refcount == 0
      modifies this`readCacheSize, this`writeCacheSize
      ensures p == DirtyPiece(p0, i, data, job, addHasher)
      ensures readCacheSize - Sum(p.blocks, Clean) == old(readCacheSize) - Sum(p0.blocks, Clean)
      ensures writeCacheSize - Sum(p.blocks, Dirty) == old(writeCacheSize) - Sum(p0.blocks, Dirty)
      ensures Sum(p.blocks, Pinned) == Sum(p0.blocks, Pinned)
    {
      hide Sum, Total, Counted;
      p := p0;
      if p.blocks[i].buf.Some? {
        p := FreeOne(p, i);
      }
      p := FillDirty(p, i, data);
      assert p.blocks == p0.blocks[i := Dirtied(p0.blocks[i], data)];
      p := p.(jobs := p.jobs + [Job(job, i)]);
      if i == 0 && p.hash.None? && !p.hashingDone && addHasher {
        p := p.(hash := Some(0));
      }
    }

    /** add_dirty_block() behind the allocation and the eviction: the block may hold what
        was read or written before, but nobody may refer to it. At the end the piece, being
        dirty, is at the back of the write list. */
    method DirtyBlock(k: Key, i: nat, data: Bytes, job: nat, addHasher: bool)
      requires Valid() && HasBlock(View(), k, i) && pieces[k].blocks[i].refcount == 0
      modifies this`pieces, this`lru, this`readCacheSize, this`writeCacheSize
      ensures Valid() && View() == WriteBlock(old(View()), k, i, data, job, addHasher)
    {
      hide Sum, Total;
      ghost var s := View();
      assert BlockOk(pieces[k].blocks[i]);
      WriteBlockKeepsInv(s, k, i, data, job, addHasher);
      var p := AddDirty(pieces[k], i, data, job, addHasher);
      SizesUpdate(pieces, k, p.(cacheState := WRITE_LRU));
      lru := lru[p.cacheState := Without(lru[p.cacheState], k)];
      lru := lru[WRITE_LRU := lru[WRITE_LRU] + [k]];
      pieces := pieces[k := p.(cacheState := WRITE_LRU)];
    }

    // ----- reading -----

    /** The loop of insert_blocks(). */
    method InsertBuffers(p0: Piece, first: nat, iov: seq<Bytes>, inc: bool) returns (p: Piece)
      requires Counted(p0) && BlocksOk(p0.blocks) && first + |iov| <= |p0.blocks|
      modifies this`readCacheSize, this`pinnedBlocks
      ensures p == Recount(p0, InsertIn(p0.blocks, first, iov, inc))
      ensures readCacheSize - Sum(p.blocks, Clean) == old(readCacheSize) - Sum(p0.blocks, Clean)
      ensures pinnedBlocks - Sum(p.blocks, Pinned) == old(pinnedBlocks) - Sum(p0.blocks, Pinned)
      ensures Sum(p.blocks, Dirty) == Sum(p0.blocks, Dirty)
    {
      hide Sum, Total;
      p := p0;
      for n := 0 to |iov|
        invariant |p.blocks| == |p0.blocks|
        invariant p == Recount(p0, p.blocks)
        invariant forall j :: 0 <= j < |p.blocks| ==>
          p.blocks[j] == if first <= j < first + n then Inserted(p0.blocks[j], iov[j - first], inc) else p0.blocks[j]
        invariant readCacheSize - Sum(p.blocks, Clean) == old(readCacheSize) - Sum(p0.blocks, Clean)
        invariant pinnedBlocks - Sum(p.blocks, Pinned) == old(pinnedBlocks) - Sum(p0.blocks, Pinned)
        invariant Sum(p.blocks, Dirty) == Sum(p0.blocks, Dirty)
      {
        assert BlockOk(p.blocks[first + n]);
        p := InsertOne(p, first + n, iov[n], inc);
      }
      assert p.blocks == InsertIn(p0.blocks, first, iov, inc);
    }

    /** Either drops the buffer or inserts it; a block is never replaced. */
    method InsertOne(p: Piece, i: nat, data: Bytes, inc: bool) returns (r: Piece)
      requires Counted(p) && i < |p.blocks| && BlockOk(p.blocks[i])
      modifies this`readCacheSize, this`pinnedBlocks
      ensures r == Recount(p, p.blocks[i := Inserted(p.blocks[i], data, inc)])
      ensures readCacheSize - Sum(r.blocks, Clean) == old(readCacheSize) - Sum(p.blocks, Clean)
      ensures pinnedBlocks - Sum(r.blocks, Pinned) == old(pinnedBlocks) - Sum(p.blocks, Pinned)
      ensures Sum(r.blocks, Dirty) == Sum(p.blocks, Dirty)
    {
      hide Sum, Total;
      r := p;
      if r.blocks[i].buf.None? {
        r := FillClean(r, i, data);
      }
      if inc {
        r := Acquire(r, i, RefReading);
      }
      assert r.blocks == p.blocks[i := Inserted(p.blocks[i], data, inc)];
    }

    method InsertBlocks(k: Key, first: nat, iov: seq<Bytes>, inc: bool, hitBlock: nat, volatileRead: bool)
      requires Valid() && HasBlock(View(), k, hitBlock) && first + |iov| <= |pieces[k].blocks|
      modifies this`pieces, this`lru, this`lastCacheOp, this`readCacheSize, this`pinnedBlocks
      ensures Valid() && View() == CacheFill.InsertBlocks(old(View()), k, first, iov, inc, hitBlock)
    {
      hide Sum, Total;
      InsertKeepsInv(View(), k, first, iov, inc, hitBlock);
      CacheHitKeepsInv(View(), k, hitBlock);
      CacheHit(k, hitBlock, volatileRead);
      ghost var s := View();
      var p := InsertBuffers(pieces[k], first, iov, inc);
      Store(k, p, s);
    }

    /** A send buffer gave back a block it had borrowed. */
    method ReclaimBlock(k: Key, i: nat)
      requires Valid()
      requires k in pieces ==> HasBlock(View(), k, i) && pieces[k].blocks[i].reading > 0
      modifies this`pieces, this`lru, this`readCacheSize, this`writeCacheSize, this`pinnedBlocks
      ensures Valid()
      ensures k !in old(pieces) ==> View() == old(View())
      ensures k in old(pieces) ==> View() == Reclaim(old(View()), k, i, ghostSize)
    {
      hide Sum, Total;
      if k !in pieces {
        return;
      }
      assert BlockOk(pieces[k].blocks[i]);
      DecBlockRefcount(k, i, RefReading);
      var _ := MaybeFreePiece(k);
    }
  }
}
