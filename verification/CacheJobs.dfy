/** Every write job that waits at a piece waits for a dirty block: none is left behind. */
module CacheJobs {
  import opened Options
  import opened CacheModel
  import opened CacheOps
  import opened CacheFill
  import opened CacheSystem
  import opened CacheRuns
  import CacheEvict
  import CacheFlush

  predicate NeededAt(s: State, k: Key, j: Job) {
    Cell(s, Place(k, j.block)).dirty
  }

  ghost predicate JobsNeeded(s: State) {
    forall k, j :: k in s.pieces && j in s.pieces[k].jobs ==> NeededAt(s, k, j)
  }

  /** No piece has a job that it did not have before. */
  ghost predicate NoNewJobs(s: State, t: State) {
    forall k :: k in t.pieces ==> FewerJobs(s, k, t.pieces[k])
  }

  predicate FewerJobs(s: State, k: Key, p: Piece) {
    p.jobs == [] || (k in s.pieces && p.jobs == s.pieces[k].jobs)
  }

  lemma DriftKeepsNeed(s: State, t: State)
    requires JobsNeeded(s) && Drifts(s, t) && NoNewJobs(s, t)
    ensures JobsNeeded(t)
  {
    hide Cell;
    forall k, j | k in t.pieces && j in t.pieces[k].jobs
      ensures NeededAt(t, k, j)
    {
      assert FewerJobs(s, k, t.pieces[k]) && NeededAt(s, k, j);
      assert Drift(Cell(s, Place(k, j.block)), Cell(t, Place(k, j.block)));
    }
  }

  lemma SameKeepsNeed(s: State, t: State)
    requires JobsNeeded(s) && NoNewJobs(s, t) && forall at :: Cell(t, at).dirty == Cell(s, at).dirty
    ensures JobsNeeded(t)
  {
    hide Cell;
    forall k, j | k in t.pieces && j in t.pieces[k].jobs
      ensures NeededAt(t, k, j)
    {
      assert FewerJobs(s, k, t.pieces[k]) && NeededAt(s, k, j);
    }
  }

  lemma EvictedKeepsNeed(s: State, t: State)
    requires Inv(s) && JobsNeeded(s) && CacheEvict.Evicted(s, t)
    ensures JobsNeeded(t)
  {
    hide Inv, CacheEvict.Thinner, CacheEvict.Expendable;
    EvictedDrifts(s, t);
    EvictedNoNewJobs(s, t);
    DriftKeepsNeed(s, t);
  }

  lemma EvictedNoNewJobs(s: State, t: State)
    requires CacheEvict.Evicted(s, t)
    ensures NoNewJobs(s, t)
  {
    hide CacheEvict.Thinner, CacheEvict.Expendable;
    forall k | k in t.pieces
      ensures FewerJobs(s, k, t.pieces[k])
    {
      assert CacheEvict.Kept(s.pieces[k], t.pieces[k]);
    }
  }

  lemma NoNewTwice(s: State, t: State, u: State)
    requires NoNewJobs(s, t) && NoNewJobs(t, u)
    ensures NoNewJobs(s, u)
  {
    forall k | k in u.pieces
      ensures FewerJobs(s, k, u.pieces[k])
    {
      assert FewerJobs(t, k, u.pieces[k]);
      if k in t.pieces {
        assert FewerJobs(s, k, t.pieces[k]);
      }
    }
  }

  lemma PutNoNewJobs(s: State, k: Key, p: Piece)
    requires FewerJobs(s, k, p)
    ensures NoNewJobs(s, Put(s, k, p))
  {
  }

  lemma EvictPieceNoNewJobs(s: State, k: Key, allowGhost: bool, size: nat)
    requires Inv(s) && k in s.pieces && size > 0
    ensures NoNewJobs(s, EvictPiece(s, k, allowGhost, size).state)
  {
    hide Sum, Listed, PieceOk, OkToEvict, MapBlocks, MoveToGhost, FewerJobs, NoNewJobs, CacheEvict.Evicted, CacheEvict.Expendable;
    var p := s.pieces[k];
    var left := Recount(p, MapBlocks(p.blocks, DropUnreferenced));
    var emptied := left.(hash := None, jobs := []);
    SameJobsAreFewer(s, k, left, emptied);
    PutNoNewJobs(s, k, left);
    PutNoNewJobs(s, k, emptied);
    if OkToEvict(left, true) && left.numBlocks == 0 {
      var t := Put(s, k, emptied);
      EmptiedInv(s, k, left);
      assert PieceOk(t.pieces[k]);
      InvListed(t, k);
      if allowGhost && IsGhost(p.cacheState) {
      } else if !allowGhost || p.cacheState == WRITE_LRU || p.cacheState == VOLATILE_READ_LRU {
        CacheEvict.EmptyIsExpendable(emptied);
        CacheEvict.RemoveEvicts(t, k);
        EvictedNoNewJobs(t, Remove(t, k));
        NoNewTwice(s, t, Remove(t, k));
      } else {
        CacheEvict.GhostEvicts(t, k, size);
        EvictedNoNewJobs(t, MoveToGhost(t, k, size));
        NoNewTwice(s, t, MoveToGhost(t, k, size));
      }
    }
  }

  lemma SameJobsAreFewer(s: State, k: Key, p: Piece, q: Piece)
    requires k in s.pieces && p.jobs == s.pieces[k].jobs && q.jobs == []
    ensures FewerJobs(s, k, p) && FewerJobs(s, k, q)
  {
  }

  lemma MaybeFreeKeepsNeed(s: State, k: Key, size: nat)
    requires Inv(s) && JobsHeld(s) && JobsNeeded(s) && k in s.pieces && size > 0
    ensures JobsNeeded(MaybeFreePiece(s, k, size))
  {
    hide Sum, Listed, PieceOk, EvictPiece, JobsHeld, JobsNeeded, Drifts, NoNewJobs, Freeable;
    MaybeFreeDrifts(s, k, size);
    if Freeable(s.pieces[k]) {
      EvictPieceNoNewJobs(s, k, !s.pieces[k].markedForDeletion, size);
      DriftKeepsNeed(s, MaybeFreePiece(s, k, size));
    }
  }

  lemma MarkKeepsNeed(s: State, k: Key, allowGhost: bool, size: nat)
    requires Inv(s) && JobsHeld(s) && JobsNeeded(s) && k in s.pieces && s.pieces[k].jobs == [] && size > 0
    ensures JobsNeeded(MarkForEviction(s, k, allowGhost, size))
  {
    hide Sum, Listed, PieceOk, EvictPiece, JobsHeld, Drifts, JobsNeeded, NoNewJobs;
    var e := EvictPiece(s, k, allowGhost, size);
    EvictPieceDrifts(s, k, allowGhost, size);
    EvictPieceNoNewJobs(s, k, allowGhost, size);
    DriftKeepsNeed(s, e.state);
    if !e.evicted {
      NotEvicted(s, k, allowGhost, size);
      FlagsKeepNeed(e.state, k, e.state.pieces[k].(markedForEviction := true, markedForDeletion := !allowGhost));
    }
  }

  lemma FlagsKeepNeed(s: State, k: Key, p: Piece)
    requires JobsNeeded(s) && k in s.pieces && p.blocks == s.pieces[k].blocks && p.jobs == s.pieces[k].jobs
    ensures JobsNeeded(Put(s, k, p))
  {
    forall x, j | x in Put(s, k, p).pieces && j in Put(s, k, p).pieces[x].jobs
      ensures NeededAt(Put(s, k, p), x, j)
    {
      assert NeededAt(s, x, j);
    }
  }

  /** Of the jobs of a flush that succeeded those stay whose block is dirty again, or was not
      part of it. */
  lemma EndFlushKeepsNeed(s: State, f: Flush, size: nat)
    requires Inv(s) && JobsHeld(s) && JobsNeeded(s) && f.key in s.pieces && size > 0
    ensures JobsNeeded(IovecFlushed(s, f.key, f.blocks, false, size))
  {
    hide Sum, Listed, PieceOk, Marked, JobsHeld, MaybeFreePiece, Freeable;
    var t := Marked(s, f.key, f.blocks);
    MarkedKeepsInv(s, f.key, f.blocks);
    MarkedKeepsJobs(s, f);
    MarkedJobs(s, f);
    if Freeable(t.pieces[f.key]) {
      FreeableHasNoJobs(t.pieces[f.key]);
      forall k, j | k in t.pieces && j in t.pieces[k].jobs
        ensures NeededAt(t, k, j)
      {
        assert NeededAt(s, k, j);
        MarkedCells(s, f, Place(k, j.block));
      }
      MaybeFreeKeepsNeed(t, f.key, size);
    } else {
      FinishLeavesNeeded(s, f);
    }
  }

  lemma FreeableHasNoJobs(p: Piece)
    requires Freeable(p)
    ensures p.jobs == []
  {
  }

  lemma FinishLeavesNeeded(s: State, f: Flush)
    requires Inv(s) && JobsNeeded(s) && f.key in s.pieces
    requires f.key in Marked(s, f.key, f.blocks).pieces
    ensures JobsNeeded(FinishJobs(Marked(s, f.key, f.blocks), f.key, false))
  {
    hide Sum, Listed, PieceOk, Marked, Unfinished;
    var t := Marked(s, f.key, f.blocks);
    var u := FinishJobs(t, f.key, false);
    MarkedKeepsInv(s, f.key, f.blocks);
    MarkedJobs(s, f);
    forall k, j | k in u.pieces && j in u.pieces[k].jobs
      ensures NeededAt(u, k, j)
    {
      assert j in t.pieces[k].jobs && j in s.pieces[k].jobs && NeededAt(s, k, j);
      MarkedCells(s, f, Place(k, j.block));
      CellOk(t, Place(k, j.block));
      assert Cell(u, Place(k, j.block)) == Cell(t, Place(k, j.block));
      if k == f.key {
        assert !Completed(t.pieces[k].blocks, j);
      }
    }
  }

  lemma AllocateKeepsNeed(s: State, k: Key, n: nat)
    requires Inv(s) && JobsNeeded(s)
    ensures JobsNeeded(AllocatePiece(s, k, n, WRITE_LRU))
  {
    hide Inv, Cell, AllocatePiece;
    var t := AllocatePiece(s, k, n, WRITE_LRU);
    forall at
      ensures Cell(t, at).dirty == Cell(s, at).dirty
    {
      AllocatedCell(s, k, n, at);
    }
    AllocatedNoNewJobs(s, k, n);
    SameKeepsNeed(s, t);
  }

  lemma AllocatedNoNewJobs(s: State, k: Key, n: nat)
    requires Inv(s)
    ensures NoNewJobs(s, AllocatePiece(s, k, n, WRITE_LRU))
  {
    hide Sum, PieceOk;
  }

  lemma WriteKeepsNeed(s: State, at: Place, data: Bytes, job: nat, addHasher: bool)
    requires HasBlock(s, at.key, at.block) && s.pieces[at.key].cacheState < |s.lru| == NUM_LRUS && JobsNeeded(s)
    ensures JobsNeeded(WriteBlock(s, at.key, at.block, data, job, addHasher))
  {
    hide Sum, Cell;
    var t := WriteBlock(s, at.key, at.block, data, job, addHasher);
    forall k, j | k in t.pieces && j in t.pieces[k].jobs
      ensures NeededAt(t, k, j)
    {
      WriteCells(s, at, data, job, addHasher, Place(k, j.block));
      if k != at.key || j in s.pieces[k].jobs {
        assert NeededAt(s, k, j);
      }
    }
  }

  lemma WriteEventKeepsNeed(w: World, e: Event)
    requires Good(w) && JobsNeeded(w.cache) && Enabled(w, e) && e.WriteTo?
    ensures JobsNeeded(Next(w, e).cache)
  {
    hide Inv, JobsNeeded, AllocatePiece, WriteBlock, CacheEvict.Evicted, CacheEvict.Spared, CacheFlush.CanWrite;
    AllocateKeepsInv(w.cache, e.at.key, e.n, WRITE_LRU);
    AllocateKeepsNeed(w.cache, e.at.key, e.n);
    EvictedKeepsNeed(AllocatePiece(w.cache, e.at.key, e.n, WRITE_LRU), e.mid);
    InvListed(e.mid, e.at.key);
    WriteKeepsNeed(e.mid, e.at, e.data, e.job, e.addHasher);
  }

  lemma BeginFlushKeepsNeed(s: State, k: Key, start: nat, end: nat)
    requires JobsNeeded(s) && k in s.pieces
    ensures JobsNeeded(StartFlush(s, k, start, end))
  {
    hide Sum, FlushRange, Cell;
    var t := StartFlush(s, k, start, end);
    forall at
      ensures Cell(t, at).dirty == Cell(s, at).dirty
    {
      FlushCells(s, k, start, end, at);
    }
    SameKeepsNeed(s, t);
  }

  lemma InsertKeepsNeed(s: State, r: Read, inc: bool, hitBlock: nat)
    requires Inv(s) && JobsNeeded(s) && HasBlock(s, r.key, hitBlock) && |r.data| == r.count
    ensures JobsNeeded(InsertBlocks(s, r.key, r.first, r.data, inc, hitBlock))
  {
    hide Inv, Cell, InsertBlocks;
    var t := InsertBlocks(s, r.key, r.first, r.data, inc, hitBlock);
    forall at
      ensures Cell(t, at).dirty == Cell(s, at).dirty
    {
      InsertCells(s, r, inc, hitBlock, at);
    }
    InsertedNoNewJobs(s, r, inc, hitBlock);
    SameKeepsNeed(s, t);
  }

  lemma InsertedNoNewJobs(s: State, r: Read, inc: bool, hitBlock: nat)
    requires Inv(s) && HasBlock(s, r.key, hitBlock)
    ensures NoNewJobs(s, InsertBlocks(s, r.key, r.first, r.data, inc, hitBlock))
  {
    hide Sum, InsertIn, PieceOk, Listed, CacheHit;
    CacheHitKeepsInv(s, r.key, hitBlock);
  }

  lemma SameAreNotNew(s: State, t: State)
    requires SameJobs(s, t)
    ensures NoNewJobs(s, t)
  {
  }

  lemma RearrangeKeepsNeed(s: State, t: State)
    requires JobsNeeded(s) && Rearranged(s, t)
    ensures JobsNeeded(t)
  {
    hide Inv, Cell;
    forall at
      ensures Cell(t, at).dirty == Cell(s, at).dirty
    {
      assert Same(Cell(s, at), Cell(t, at));
    }
    SameAreNotNew(s, t);
    SameKeepsNeed(s, t);
  }

  lemma StepKeepsNeed(w: World, e: Event)
    requires Good(w) && JobsNeeded(w.cache) && Enabled(w, e) && Timely(w, e)
    ensures JobsNeeded(Next(w, e).cache)
  {
    hide Inv, Cell, JobsNeeded, JobsHeld, CleanOnDisk, FlushesGood, ReadsGood, IovecFlushed, InsertBlocks, CacheEvict.Evicted;
    match e
    case WriteTo(_, _, _, _, _, _) => WriteEventKeepsNeed(w, e);
    case BeginFlush(id, key, start, end) => BeginFlushKeepsNeed(w.cache, key, start, end);
    case WriteOut(_) => {}
    case FailOut(_, _) => {}
    case EndFlush(id) => EndFlushKeepsNeed(w.cache, w.flushes[id], w.size);
    case MaybeFree(key) => MaybeFreeKeepsNeed(w.cache, key, w.size);
    case Mark(key, allowGhost) => MarkKeepsNeed(w.cache, key, allowGhost, w.size);
    case Evict(after) => EvictedKeepsNeed(w.cache, after);
    case Rearrange(after) => RearrangeKeepsNeed(w.cache, after);
    case BeginRead(_, _, _, _) => {}
    case Fetch(_) => {}
    case EndRead(id, inc, hitBlock) => InsertKeepsNeed(w.cache, w.readers[id], inc, hitBlock);
  }

  /** Over every run a job waits for a block exactly as long as the block is dirty: dirty
      blocks have jobs, and jobs have dirty blocks. */
  lemma {:induction false} JobsWaitForDirtyBlocks(w: World, run: seq<Event>, k: Key, i: nat)
    requires Good(w) && JobsNeeded(w.cache) && IsRun(w, run)
    ensures JobsNeeded(After(w, run).cache)
    ensures var s := After(w, run).cache;
      k in s.pieces ==> (HasJob(s.pieces[k].jobs, i) <==> Cell(s, Place(k, i)).dirty)
    decreases |run|
  {
    hide Inv, Enabled, Next, Timely, Cell;
    if run != [] {
      StepIsCorrect(w, run[0]);
      StepKeepsNeed(w, run[0]);
      JobsWaitForDirtyBlocks(Next(w, run[0]), run[1..], k, i);
    } else if k in w.cache.pieces {
      HeldAndNeeded(w.cache, k, i);
    }
  }

  lemma HeldAndNeeded(s: State, k: Key, i: nat)
    requires JobsHeld(s) && JobsNeeded(s) && k in s.pieces
    ensures HasJob(s.pieces[k].jobs, i) <==> Cell(s, Place(k, i)).dirty
  {
    assert Awaited(s.pieces[k]);
    if HasJob(s.pieces[k].jobs, i) {
      var j :| j in s.pieces[k].jobs && j.block == i;
      assert NeededAt(s, k, j);
    }
  }

  /** A piece without blocks has no jobs, as erase_piece() asserts. */
  lemma EmptyHasNoJobs(s: State, k: Key)
    requires Inv(s) && JobsNeeded(s) && k in s.pieces && s.pieces[k].numBlocks == 0
    ensures s.pieces[k].jobs == []
  {
    if s.pieces[k].jobs != [] {
      JobsHaveBlocks(s, k, s.pieces[k].jobs[0]);
    }
  }

  lemma JobsHaveBlocks(s: State, k: Key, j: Job)
    requires Inv(s) && JobsNeeded(s) && k in s.pieces && j in s.pieces[k].jobs
    ensures s.pieces[k].numBlocks > 0
  {
    hide Sum, Listed;
    assert PieceOk(s.pieces[k]) && NeededAt(s, k, j);
    assert BlockOk(s.pieces[k].blocks[j.block]);
    SumAtLeast(s.pieces[k].blocks, j.block, Cached);
  }

  lemma NothingNeeded()
    ensures JobsNeeded(EmptyCache())
  {
  }
}
