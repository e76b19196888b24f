/** What follows from the invariant of the cache with its disk, and exactly when the source
    leaves it: at the end of a flush that failed, and inserting a read that was overtaken. */
module CacheOutcomes {
  import opened Options
  import opened CacheModel
  import opened CacheOps
  import opened CacheFill
  import opened CacheSystem
  import opened CacheRuns
  import CacheEvict

  // ----- what a reader gets -----

  /** The bytes copy_from_piece() returns are those of the store. */
  lemma CachedBytesAreContent(w: World, k: Key, x: nat)
    requires k in w.cache.pieces && HasByte(w.cache.pieces[k], x)
    ensures var at := Place(k, x / DEFAULT_BLOCK_SIZE);
      && x % DEFAULT_BLOCK_SIZE < |Content(w, at)|
      && ByteAt(w.cache.pieces[k], x) == Content(w, at)[x % DEFAULT_BLOCK_SIZE]
  {
  }

  // ----- the operations that only rearrange -----

  lemma PutBlockRearranges(s: State, k: Key, i: nat, b: Block)
    requires Inv(s) && HasBlock(s, k, i) && BlockOk(b) && Same(s.pieces[k].blocks[i], b)
    ensures Rearranged(s, PutBlock(s, k, i, b))
  {
    hide Sum, Listed;
    PutBlockKeepsInv(s, k, i, b);
  }

  /** Taking and giving back references for hashing and reading. */
  lemma ReferencesRearrange(s: State, k: Key, i: nat, reason: Reason)
    requires Inv(s) && HasBlock(s, k, i) && reason != RefFlushing
    ensures Rearranged(s, IncRef(s, k, i, reason))
    ensures var b := s.pieces[k].blocks[i];
      b.refcount > 0 && Count(b, reason) > 0 ==> Rearranged(s, DecRef(s, k, i, reason))
  {
    hide Sum, Listed, PutBlock;
    var b := s.pieces[k].blocks[i];
    assert PieceOk(s.pieces[k]) && BlockOk(b);
    if b.buf.Some? {
      PutBlockRearranges(s, k, i, Referenced(b, reason));
    } else {
      assert forall at :: Same(Cell(s, at), Cell(s, at));
    }
    if b.refcount > 0 && Count(b, reason) > 0 {
      PutBlockRearranges(s, k, i, Released(b, reason));
    }
  }

  /** Moving a piece between the lists. */
  lemma HitRearranges(s: State, k: Key, block: nat)
    requires Inv(s) && HasBlock(s, k, block)
    ensures s.pieces[k].cacheState < |s.lru| == NUM_LRUS && Rearranged(s, CacheHit(s, k, block))
  {
    hide Sum, PieceOk, Listed, CacheHit;
    InvListed(s, k);
    CacheHitKeepsInv(s, k, block);
  }

  lemma UpdateRearranges(s: State, k: Key)
    requires Inv(s) && k in s.pieces
    ensures s.pieces[k].cacheState < |s.lru| == NUM_LRUS && Rearranged(s, UpdateCacheState(s, k))
  {
    hide Sum, PieceOk, Listed;
    InvListed(s, k);
    UpdateKeepsInv(s, k);
  }

  // ----- a flush that fails -----

  /** A block of a flush that is not known to be on the disk. */
  predicate Unwritten(f: Flush, m: nat)
    requires m < |f.blocks|
  {
    m >= f.done || f.blocks[m] in f.failed
  }

  predicate OnDisk(w: World, f: Flush, m: nat)
    requires m < |f.blocks|
  {
    var at := Place(f.key, f.blocks[m]);
    Cell(w.cache, at).buf == Some(DiskAt(w, at))
  }

  /** Everything the flush did not write happens to be on the disk. */
  ghost predicate Lucky(w: World, f: Flush) {
    forall m :: 0 <= m < |f.blocks| && Unwritten(f, m) ==> OnDisk(w, f, m)
  }

  /** iovec_flushed() marks the blocks of a failed write as clean, like those of a
      successful one. Every clean buffer still holds what is on the disk exactly if the
      blocks that were not written happen to be there already. */
  lemma FailedFlushKeepsCleanIff(w: World, id: nat)
    requires Good(w) && id in w.flushes && w.flushes[id].key in w.cache.pieces
    ensures var f := w.flushes[id];
      CleanOnDisk(w.(cache := Marked(w.cache, f.key, f.blocks))) <==> Lucky(w, f)
  {
    hide Inv, Marked, Cell, FlushesGood, ReadsGood, JobsHeld;
    var f := w.flushes[id];
    var v := w.(cache := Marked(w.cache, f.key, f.blocks));
    GoodFlush(w, id);
    if CleanOnDisk(v) {
      forall m | 0 <= m < |f.blocks| && Unwritten(f, m)
        ensures OnDisk(w, f, m)
      {
        var at := Place(f.key, f.blocks[m]);
        assert CleanAt(v, at);
        MarkedFlushCell(w, f, m);
      }
    }
    if Lucky(w, f) {
      forall x
        ensures CleanAt(v, x)
      {
        FailedCellIsClean(w, f, x);
      }
    }
  }

  lemma GoodFlush(w: World, id: nat)
    requires Good(w) && id in w.flushes
    ensures FlushGood(w, w.flushes[id])
  {
  }

  lemma MarkedFlushCell(w: World, f: Flush, m: nat)
    requires Good(w) && FlushGood(w, f) && f.key in w.cache.pieces && m < |f.blocks|
    ensures var at := Place(f.key, f.blocks[m]);
      var b := Cell(Marked(w.cache, f.key, f.blocks), at);
      !b.dirty && b.buf == Cell(w.cache, at).buf && b.buf.Some?
  {
    hide Sum, Listed, PieceOk, Marked, CleanOnDisk, FlushesGood, ReadsGood, JobsHeld;
    var at := Place(f.key, f.blocks[m]);
    MarkedCells(w.cache, f, at);
    FlushHasBuffer(w, f, m);
    CellOk(w.cache, at);
  }

  lemma FailedCellIsClean(w: World, f: Flush, x: Place)
    requires Good(w) && FlushGood(w, f) && f.key in w.cache.pieces && Lucky(w, f)
    ensures CleanAt(w.(cache := Marked(w.cache, f.key, f.blocks)), x)
  {
    hide Sum, Inv, Marked, Cell, FlushesGood, ReadsGood, JobsHeld;
    assert CleanAt(w, x);
    MarkedCells(w.cache, f, x);
    if x.key == f.key && x.block in f.blocks {
      var m :| 0 <= m < |f.blocks| && f.blocks[m] == x.block;
      MarkedFlushCell(w, f, m);
      assert FlushAt(w, f, m);
      assert Unwritten(f, m) ==> OnDisk(w, f, m);
    }
  }

  // ----- when a flush may be ended -----

  /** The same cache and flushes over some disk: what the locked region can see. */
  ghost predicate Looks(w: World, v: World) {
    Good(v) && v.cache == w.cache && v.flushes == w.flushes && v.size == w.size
  }

  ghost predicate EndsWell(w: World, id: nat) {
    && Enabled(w, EndFlush(id))
    && Good(Next(w, EndFlush(id)))
    && forall x :: Content(Next(w, EndFlush(id)), x) == Content(w, x)
  }

  /** Ending a flush keeps the invariant and what every block reads as, whatever the disk
      holds where nothing was written, exactly if every write succeeded. */
  lemma EndFlushIsSafeIff(w: World, id: nat)
    requires Good(w) && Enabled(w, EndFlush(id))
    ensures (forall v :: Looks(w, v) ==> EndsWell(v, id)) <==> w.flushes[id].failed == {}
  {
    hide Inv, Cell, Content, CleanOnDisk, FlushesGood, ReadsGood, JobsHeld, IovecFlushed;
    var f := w.flushes[id];
    if f.failed == {} {
      forall v | Looks(w, v)
        ensures EndsWell(v, id)
      {
        EndFlushKeepsGood(v, id);
      }
    } else {
      var i :| i in f.failed;
      GoodFlush(w, id);
      var m :| 0 <= m < |f.blocks| && f.blocks[m] == i;
      var v := Elsewhere(w, id, m);
      ElsewhereIsGood(w, id, m);
      EndsBadly(v, id, m);
      assert Looks(w, v) && !EndsWell(v, id);
    }
  }

  /** The disk holds something else where block m of the flush is to go. */
  function Elsewhere(w: World, id: nat, m: nat): World
    requires id in w.flushes && m < |w.flushes[id].blocks|
  {
    var at := Place(w.flushes[id].key, w.flushes[id].blocks[m]);
    var b := Cell(w.cache, at);
    w.(disk := w.disk[at := if b.buf == Some("") then "x" else ""], readers := map[])
  }

  lemma ElsewhereIsGood(w: World, id: nat, m: nat)
    requires Good(w) && id in w.flushes && m < |w.flushes[id].blocks| && w.flushes[id].blocks[m] in w.flushes[id].failed
    ensures Good(Elsewhere(w, id, m))
  {
    hide Inv, Cell, JobsHeld, Exclusive;
    var f, v := w.flushes[id], Elsewhere(w, id, m);
    var at := Place(f.key, f.blocks[m]);
    GoodFlush(w, id);
    FlushHasBuffer(w, f, m);
    forall x
      ensures CleanAt(v, x)
    {
      assert CleanAt(w, x);
    }
    SameFlushesApart(w, v);
    forall i | i in v.flushes
      ensures FlushGood(v, v.flushes[i])
    {
      ElsewhereKeepsFlush(w, id, m, i);
    }
  }

  lemma ElsewhereKeepsFlush(w: World, id: nat, m: nat, i: nat)
    requires FlushesGood(w) && id in w.flushes && i in w.flushes
    requires m < |w.flushes[id].blocks| && w.flushes[id].blocks[m] in w.flushes[id].failed
    ensures FlushGood(Elsewhere(w, id, m), w.flushes[i])
  {
    hide Cell;
    var f, g, v := w.flushes[id], w.flushes[i], Elsewhere(w, id, m);
    assert FlushGood(w, g) && (i != id ==> Apart(g, f));
    forall n | 0 <= n < |g.blocks|
      ensures FlushAt(v, g, n)
    {
      assert FlushAt(w, g, n);
    }
  }

  /** A job waits for the block, so that the piece is not freed: its buffer becomes clean. */
  lemma EndsBadly(w: World, id: nat, m: nat)
    requires Good(w) && Enabled(w, EndFlush(id)) && m < |w.flushes[id].blocks| && !OnDisk(w, w.flushes[id], m)
    ensures !CleanOnDisk(Next(w, EndFlush(id)))
  {
    hide Sum, Listed, PieceOk, CleanOnDisk, FlushesGood, ReadsGood, JobsHeld, Marked, MaybeFreePiece;
    var f := w.flushes[id];
    var at := Place(f.key, f.blocks[m]);
    var t := Marked(w.cache, f.key, f.blocks);
    GoodFlush(w, id);
    MarkedKeepsInv(w.cache, f.key, f.blocks);
    MarkedFlushCell(w, f, m);
    FlushHasBuffer(w, f, m);
    DirtyIsAwaited(w.cache, at);
    var v := Next(w, EndFlush(id));
    assert v.cache == FinishJobs(t, f.key, f.failed != {});
    assert Cell(v.cache, at) == Cell(t, at);
    NotClean(v, at);
  }

  lemma NotClean(w: World, at: Place)
    requires !CleanAt(w, at)
    ensures !CleanOnDisk(w)
  {
  }

  lemma DirtyIsAwaited(s: State, at: Place)
    requires JobsHeld(s) && Cell(s, at).dirty
    ensures at.key in s.pieces && s.pieces[at.key].jobs != []
  {
    assert Awaited(s.pieces[at.key]);
  }

  // ----- when a read may be inserted -----

  /** The same cache and the same read, over some disk. */
  ghost predicate Reads(w: World, v: World, id: nat) {
    && Good(v) && v.cache == w.cache && v.size == w.size
    && id in w.readers && id in v.readers && v.readers[id] == w.readers[id]
  }

  ghost predicate IsUnseen(w: World, e: Event) {
    Enabled(w, e) && Good(Next(w, e)) && forall x :: Content(Next(w, e), x) == Content(w, x)
  }

  /** Inserting a read keeps the invariant and what every block reads as, whatever the disk
      holds by now, exactly if no missing block of it was written out since it was read. */
  lemma EndReadIsSafeIff(w: World, id: nat, inc: bool, hitBlock: nat)
    requires Good(w) && Enabled(w, EndRead(id, inc, hitBlock))
    ensures (forall v :: Reads(w, v, id) ==> IsUnseen(v, EndRead(id, inc, hitBlock))) <==> NotOvertaken(w, w.readers[id])
  {
    hide Inv, Cell, Content, CleanOnDisk, FlushesGood, JobsHeld, InsertBlocks;
    var e, r := EndRead(id, inc, hitBlock), w.readers[id];
    if NotOvertaken(w, r) {
      forall v | Reads(w, v, id)
        ensures IsUnseen(v, e)
      {
        NotOvertakenIsCurrent(v, r);
        EndReadKeepsGood(v, id, inc, hitBlock);
      }
    } else {
      var b :| b in r.rewritten && Cell(w.cache, Place(r.key, b)).buf.None?;
      ReadIsGood(w, id);
      var v := Newer(w, id, b);
      NewerIsGood(w, id, b);
      EndReadIsInvisibleIff(v, id, inc, hitBlock);
      assert !CurrentAt(v, r, b - r.first);
      assert Reads(w, v, id) && !IsUnseen(v, e);
    }
  }

  /** The disk holds something else than was read in place b. */
  function Newer(w: World, id: nat, b: nat): World
    requires id in w.readers && w.readers[id].first <= b < w.readers[id].first + |w.readers[id].data|
  {
    var r := w.readers[id];
    w.(disk := w.disk[Place(r.key, b) := if r.data[b - r.first] == "" then "x" else ""], readers := map[id := r])
  }

  lemma NewerIsGood(w: World, id: nat, b: nat)
    requires Good(w) && id in w.readers && w.readers[id].first <= b < w.readers[id].first + |w.readers[id].data|
    requires b in w.readers[id].rewritten && Cell(w.cache, Place(w.readers[id].key, b)).buf.None?
    ensures Good(Newer(w, id, b))
  {
    hide Inv, Cell, JobsHeld, Exclusive, FlushGood;
    var v := Newer(w, id, b);
    var at := Place(w.readers[id].key, b);
    CellOk(w.cache, at);
    forall x
      ensures CleanAt(v, x)
    {
      assert CleanAt(w, x);
    }
    SameFlushesApart(w, v);
    forall i | i in v.flushes
      ensures FlushGood(v, v.flushes[i])
    {
      NewerKeepsFlush(w, id, b, w.flushes[i]);
    }
    ReadIsGood(w, id);
    forall m | 0 <= m < |w.readers[id].data|
      ensures ReadAt(v, w.readers[id], m)
    {
      assert ReadAt(w, w.readers[id], m);
    }
  }

  lemma NewerKeepsFlush(w: World, id: nat, b: nat, f: Flush)
    requires id in w.readers && w.readers[id].first <= b < w.readers[id].first + |w.readers[id].data|
    requires FlushGood(w, f) && !Cell(w.cache, Place(w.readers[id].key, b)).pending
    ensures FlushGood(Newer(w, id, b), f)
  {
    hide Cell;
    forall m | 0 <= m < |f.blocks|
      ensures FlushAt(Newer(w, id, b), f, m)
    {
      assert FlushAt(w, f, m);
    }
  }

  // ----- freeing a piece whose jobs are gone -----

  /** Afterwards no block of a freed piece has a buffer. */
  lemma FreedCellIsEmpty(s: State, k: Key, allowGhost: bool, size: nat, i: nat)
    requires Inv(s) && k in s.pieces && size > 0 && Freeable(s.pieces[k])
    ensures Cell(EvictPiece(s, k, allowGhost, size).state, Place(k, i)).buf.None?
  {
    hide Sum, Listed, PieceOk, MoveToGhost, CacheEvict.Expendable;
    FreeablePieceIsEvicted(s, k, allowGhost, size);
    var p := s.pieces[k];
    var left := Recount(p, MapBlocks(p.blocks, DropUnreferenced)).(hash := None, jobs := []);
    EmptiedInv(s, k, Recount(p, MapBlocks(p.blocks, DropUnreferenced)));
    var t := Put(s, k, left);
    assert t.pieces[k] == left && PieceOk(t.pieces[k]);
    CacheEvict.NoBuffers(left);
    if allowGhost && !IsGhost(p.cacheState) {
      CacheEvict.GhostEvicts(t, k, size);
      EvictedAt(t, MoveToGhost(t, k, size), k);
      if k in MoveToGhost(t, k, size).pieces && i < |left.blocks| {
        assert CacheEvict.ThinnerAt(left.blocks[i], MoveToGhost(t, k, size).pieces[k].blocks[i]);
      }
    }
  }

  /** maybe_free_piece() drops a dirty block exactly if the piece may be freed and has one. A
      failed flush makes this possible: iovec_flushed() completes all jobs of the piece, also
      those of blocks that are still dirty, and the jobs are what keeps it from being freed. */
  lemma FreeingDropsDirtyIff(s: State, k: Key, size: nat)
    requires Inv(s) && k in s.pieces && size > 0
    ensures (exists at :: LosesDirty(s, MaybeFreePiece(s, k, size), k, at))
      <==> Freeable(s.pieces[k]) && s.pieces[k].numDirty > 0
  {
    hide Listed, PieceOk, Cell, MaybeFreePiece, Freeable;
    var p, t := s.pieces[k], MaybeFreePiece(s, k, size);
    if at :| LosesDirty(s, t, k, at) {
      DirtyIsCounted(s, at);
    }
    if Freeable(p) && p.numDirty > 0 {
      DirtyIsFreed(s, k, size);
    }
  }

  lemma DirtyIsCounted(s: State, at: Place)
    requires Inv(s) && Cell(s, at).dirty
    ensures at.key in s.pieces && s.pieces[at.key].numDirty > 0
    ensures forall size: nat :: size > 0 && !Freeable(s.pieces[at.key]) ==> MaybeFreePiece(s, at.key, size) == s
  {
    hide Sum, Listed, Freeable, EvictPiece;
    CellOk(s, at);
    assert PieceOk(s.pieces[at.key]);
    SumAtLeast(s.pieces[at.key].blocks, at.block, Dirty);
  }

  lemma DirtyIsFreed(s: State, k: Key, size: nat)
    requires Inv(s) && k in s.pieces && size > 0 && Freeable(s.pieces[k]) && s.pieces[k].numDirty > 0
    ensures exists at :: LosesDirty(s, MaybeFreePiece(s, k, size), k, at)
  {
    hide Listed, PieceOk, EvictPiece, Freeable, Cell;
    var t := MaybeFreePiece(s, k, size);
    assert PieceOk(s.pieces[k]);
    var i := DirtyBlock(s, k);
    FreedCellIsEmpty(s, k, !s.pieces[k].markedForDeletion, size, i);
    MaybeFreeKeepsInv(s, k, size);
    CellOk(t, Place(k, i));
    assert LosesDirty(s, t, k, Place(k, i));
  }

  lemma DirtyBlock(s: State, k: Key) returns (i: nat)
    requires k in s.pieces && PieceOk(s.pieces[k]) && s.pieces[k].numDirty > 0
    ensures Cell(s, Place(k, i)).dirty
  {
    hide Sum;
    i := SomeDirty(s.pieces[k].blocks);
  }

  predicate LosesDirty(s: State, t: State, k: Key, at: Place) {
    at.key == k && Cell(s, at).dirty && !Cell(t, at).dirty
  }

  lemma {:induction false} SomeDirty(bs: seq<Block>) returns (i: nat)
    requires Sum(bs, Dirty) > 0
    ensures i < |bs| && bs[i].dirty
  {
    if bs[|bs| - 1].buf.Some? && bs[|bs| - 1].dirty {
      i := |bs| - 1;
    } else {
      i := SomeDirty(bs[..|bs| - 1]);
    }
  }
}
