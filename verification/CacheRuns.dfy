/** Every run of the cache with its disk: the steps that move data, the invariant, and that
    a block always reads as what was last written to it. */
module CacheRuns {
  import opened Options
  import opened CacheModel
  import opened CacheOps
  import opened CacheFill
  import opened CacheSystem
  import CacheEvict
  import CacheFlush

  // ----- writing a block -----

  lemma AllocateIsSame(s: State, k: Key, n: nat)
    requires Inv(s) && JobsHeld(s)
    ensures var t := AllocatePiece(s, k, n, WRITE_LRU);
      Inv(t) && JobsHeld(t) && Drifts(s, t)
  {
    hide Inv, JobsHeld, Cell, AllocatePiece;
    var t := AllocatePiece(s, k, n, WRITE_LRU);
    AllocateKeepsInv(s, k, n, WRITE_LRU);
    AllocatedJobs(s, k, n);
    forall at
      ensures Drift(Cell(s, at), Cell(t, at)) && (Cell(t, at).dirty ==> Cell(s, at).dirty)
    {
      AllocatedCell(s, k, n, at);
    }
    JobsFollow(s, t);
  }

  lemma AllocatedCell(s: State, k: Key, n: nat, at: Place)
    requires Inv(s)
    ensures Cell(AllocatePiece(s, k, n, WRITE_LRU), at) == Cell(s, at)
  {
    hide Sum, PieceOk;
    if at.key == k && k !in s.pieces && at.block < n {
      assert EmptyBlocks(n)[at.block] == EMPTY_BLOCK;
    }
  }

  lemma AllocatedJobs(s: State, k: Key, n: nat)
    requires Inv(s)
    ensures SameJobs(s, AllocatePiece(s, k, n, WRITE_LRU))
  {
    hide Sum, PieceOk;
  }

  /** The cache the block is written to: after the allocation and the eviction. */
  lemma MidIsGood(w: World, at: Place, n: nat, mid: State)
    requires Good(w) && Inv(mid)
    requires CacheEvict.Evicted(AllocatePiece(w.cache, at.key, n, WRITE_LRU), mid)
    ensures Good(w.(cache := mid))
    ensures forall x :: Content(w.(cache := mid), x) == Content(w, x)
  {
    hide AllocatePiece, Sum, Listed, PieceOk, CleanOnDisk, FlushesGood, ReadsGood, Drifts, JobsHeld, CacheEvict.Evicted;
    AllocateIsSame(w.cache, at.key, n);
    var t := AllocatePiece(w.cache, at.key, n, WRITE_LRU);
    EvictedDrifts(t, mid);
    EvictedKeepsJobs(t, mid);
    DriftsTwice(w.cache, t, mid);
    DriftKeeps(w, mid);
  }

  /** Nobody writes the block that is about to be replaced. */
  lemma TargetIsIdle(s: State, at: Place, n: nat, mid: State)
    requires Inv(s) && CacheFlush.CanWrite(s, at.key, n, at.block) && HasBlock(mid, at.key, at.block)
    requires CacheEvict.Spared(AllocatePiece(s, at.key, n, WRITE_LRU), mid, at.key)
    ensures !Cell(mid, at).pending && Cell(mid, at).refcount == 0
  {
    hide AllocatePiece, Inv, BlockOk, EmptyBlocks;
    CacheFlush.AllocatedPiece(s, at.key, n);
    CellOk(s, at);
    SparedBlocks(AllocatePiece(s, at.key, n, WRITE_LRU), mid, at.key);
    if at.key in s.pieces {
      IdleCell(s.pieces[at.key].blocks[at.block]);
    }
  }

  lemma SparedBlocks(t: State, mid: State, k: Key)
    requires CacheEvict.Spared(t, mid, k) && k in t.pieces && t.pieces[k].cacheState == WRITE_LRU
    ensures k in mid.pieces && mid.pieces[k] == t.pieces[k]
  {
  }

  lemma IdleCell(b: Block)
    requires BlockOk(b) && b.refcount == 0
    ensures !b.pending
  {
  }

  lemma WriteCells(s: State, at: Place, data: Bytes, job: nat, addHasher: bool, x: Place)
    requires HasBlock(s, at.key, at.block) && s.pieces[at.key].cacheState < |s.lru| == NUM_LRUS
    ensures Cell(WriteBlock(s, at.key, at.block, data, job, addHasher), x)
      == if x == at then Dirtied(Cell(s, at), data) else Cell(s, x)
  {
    hide Sum;
  }

  /** The block that is written has a new job; the other ones keep theirs. */
  lemma WriteKeepsJobs(s: State, at: Place, data: Bytes, job: nat, addHasher: bool)
    requires HasBlock(s, at.key, at.block) && s.pieces[at.key].cacheState < |s.lru| == NUM_LRUS && JobsHeld(s)
    ensures JobsHeld(WriteBlock(s, at.key, at.block, data, job, addHasher))
  {
    hide Sum;
    var p := s.pieces[at.key];
    var t := WriteBlock(s, at.key, at.block, data, job, addHasher);
    forall k | k in t.pieces
      ensures Awaited(t.pieces[k])
    {
      assert Awaited(s.pieces[k]);
      if k == at.key {
        DirtiedIsAwaited(p, at.block, data, job, addHasher);
      }
    }
  }

  lemma DirtiedIsAwaited(p: Piece, block: nat, data: Bytes, job: nat, addHasher: bool)
    requires Awaited(p) && block < |p.blocks|
    ensures Awaited(DirtyPiece(p, block, data, job, addHasher))
    ensures Awaited(DirtyPiece(p, block, data, job, addHasher).(cacheState := WRITE_LRU))
  {
    hide Sum;
    var q := DirtyPiece(p, block, data, job, addHasher);
    forall i | 0 <= i < |q.blocks| && q.blocks[i].dirty
      ensures HasJob(q.jobs, i)
    {
      if i == block {
        assert Job(job, block) in q.jobs;
      } else {
        var j :| j in p.jobs && j.block == i;
        assert j in q.jobs;
      }
    }
  }

  lemma WriteMid(w: World, at: Place, data: Bytes, job: nat, addHasher: bool)
    requires Good(w) && HasBlock(w.cache, at.key, at.block) && !Cell(w.cache, at).pending
    ensures var v := w.(cache := WriteBlock(w.cache, at.key, at.block, data, job, addHasher));
      && Good(v)
      && forall x :: Content(v, x) == if x == at then data else Content(w, x)
  {
    hide Sum, Listed, PieceOk, Inv, WriteBlock, Cell, JobsHeld;
    InvListed(w.cache, at.key);
    var t := WriteBlock(w.cache, at.key, at.block, data, job, addHasher);
    var v := w.(cache := t);
    WriteBlockKeepsInv(w.cache, at.key, at.block, data, job, addHasher);
    WriteKeepsJobs(w.cache, at, data, job, addHasher);
    forall x
      ensures CleanAt(v, x) && Content(v, x) == if x == at then data else Content(w, x)
    {
      WriteCells(w.cache, at, data, job, addHasher, x);
      assert CleanAt(w, x);
    }
    forall id | id in w.flushes
      ensures FlushGood(v, w.flushes[id])
    {
      WriteKeepsFlush(w, at, data, job, addHasher, w.flushes[id]);
    }
    forall id | id in w.readers
      ensures ReadGood(v, w.readers[id])
    {
      SameDiskKeepsRead(w, v, w.readers[id]);
    }
  }

  lemma InvListed(s: State, k: Key)
    requires Inv(s) && k in s.pieces
    ensures s.pieces[k].cacheState < |s.lru| == NUM_LRUS
  {
    hide PieceOk;
  }

  lemma WriteKeepsFlush(w: World, at: Place, data: Bytes, job: nat, addHasher: bool, f: Flush)
    requires HasBlock(w.cache, at.key, at.block) && w.cache.pieces[at.key].cacheState < |w.cache.lru| == NUM_LRUS
    requires FlushGood(w, f) && !Cell(w.cache, at).pending
    ensures FlushGood(w.(cache := WriteBlock(w.cache, at.key, at.block, data, job, addHasher)), f)
  {
    hide Sum, WriteBlock, Cell;
    var v := w.(cache := WriteBlock(w.cache, at.key, at.block, data, job, addHasher));
    forall m | 0 <= m < |f.blocks|
      ensures FlushAt(v, f, m)
    {
      assert FlushAt(w, f, m);
      WriteCells(w.cache, at, data, job, addHasher, Place(f.key, f.blocks[m]));
    }
  }

  lemma WriteKeepsGood(w: World, at: Place, n: nat, data: Bytes, job: nat, addHasher: bool, mid: State)
    requires Good(w) && Enabled(w, WriteTo(at, n, data, job, addHasher, mid))
    ensures var v := Next(w, WriteTo(at, n, data, job, addHasher, mid));
      && Good(v)
      && forall x :: Content(v, x) == if x == at then data else Content(w, x)
  {
    hide Sum, Listed, PieceOk, Inv, WriteBlock, Cell, JobsHeld, CleanOnDisk, FlushesGood, ReadsGood, AllocatePiece, CacheEvict.Evicted, CacheEvict.Spared, CacheFlush.CanWrite, Content;
    MidIsGood(w, at, n, mid);
    TargetIsIdle(w.cache, at, n, mid);
    WriteMid(w.(cache := mid), at, data, job, addHasher);
  }

  // ----- a flush begins -----

  lemma FlushCells(s: State, k: Key, start: nat, end: nat, x: Place)
    requires k in s.pieces
    ensures Cell(StartFlush(s, k, start, end), x)
      == if x.key == k && start <= x.block < end && ToFlush(Cell(s, x)) then Flushing(Cell(s, x)) else Cell(s, x)
  {
    hide Sum, FlushRange;
  }

  lemma FlushKeepsJobs(s: State, k: Key, start: nat, end: nat)
    requires JobsHeld(s) && k in s.pieces
    ensures JobsHeld(StartFlush(s, k, start, end))
  {
    hide Sum, FlushRange, JobsHeld, Cell;
    var t := StartFlush(s, k, start, end);
    forall at
      ensures Cell(t, at).dirty ==> Cell(s, at).dirty
    {
      hide StartFlush;
      FlushCells(s, k, start, end, at);
    }
    JobsFollow(s, t);
  }

  lemma BeginFlushKeepsGood(w: World, id: nat, k: Key, start: nat, end: nat)
    requires Good(w) && Enabled(w, BeginFlush(id, k, start, end))
    ensures var v := Next(w, BeginFlush(id, k, start, end));
      Good(v) && forall x :: Content(v, x) == Content(w, x)
  {
    hide Sum, Listed, PieceOk, Inv, StartFlush, Cell, JobsHeld, FlushGood, Exclusive;
    var v := Next(w, BeginFlush(id, k, start, end));
    var f := v.flushes[id];
    StartFlushKeepsInv(w.cache, k, start, end);
    FlushKeepsJobs(w.cache, k, start, end);
    forall x
      ensures CleanAt(v, x) && Content(v, x) == Content(w, x)
    {
      FlushCells(w.cache, k, start, end, x);
      assert CleanAt(w, x);
    }
    forall i | i in v.flushes
      ensures FlushGood(v, v.flushes[i])
    {
      if i == id {
        NewFlushIsGood(w, id, k, start, end);
      } else {
        BeginKeepsFlush(w, id, k, start, end, w.flushes[i]);
      }
    }
    NewFlushIsApart(w, id, k, start, end);
    forall i | i in w.readers
      ensures ReadGood(v, w.readers[i])
    {
      SameDiskKeepsRead(w, v, w.readers[i]);
    }
  }

  lemma NewFlushIsGood(w: World, id: nat, k: Key, start: nat, end: nat)
    requires Enabled(w, BeginFlush(id, k, start, end))
    ensures var v := Next(w, BeginFlush(id, k, start, end)); FlushGood(v, v.flushes[id])
  {
    hide Sum, StartFlush;
    var v := Next(w, BeginFlush(id, k, start, end));
    var f := v.flushes[id];
    forall m | 0 <= m < |f.blocks|
      ensures FlushAt(v, f, m)
    {
      FlushCells(w.cache, k, start, end, Place(k, f.blocks[m]));
    }
  }

  lemma BeginKeepsFlush(w: World, id: nat, k: Key, start: nat, end: nat, g: Flush)
    requires Enabled(w, BeginFlush(id, k, start, end)) && FlushGood(w, g)
    ensures FlushGood(Next(w, BeginFlush(id, k, start, end)), g)
  {
    hide Sum, StartFlush, Cell, CacheFlush.Chosen;
    var v := Next(w, BeginFlush(id, k, start, end));
    forall m | 0 <= m < |g.blocks|
      ensures FlushAt(v, g, m)
    {
      assert FlushAt(w, g, m);
      FlushCells(w.cache, k, start, end, Place(g.key, g.blocks[m]));
    }
  }

  /** What a flush takes was not being written before. */
  lemma NewFlushIsApart(w: World, id: nat, k: Key, start: nat, end: nat)
    requires FlushesGood(w) && Enabled(w, BeginFlush(id, k, start, end))
    ensures Exclusive(Next(w, BeginFlush(id, k, start, end)))
  {
    hide Sum, StartFlush;
    var v := Next(w, BeginFlush(id, k, start, end));
    var f := v.flushes[id];
    forall i | i in w.flushes
      ensures Apart(w.flushes[i], f) && Apart(f, w.flushes[i])
    {
      var g := w.flushes[i];
      assert FlushGood(w, g);
      forall m, n | g.key == k && 0 <= m < |g.blocks| && 0 <= n < |f.blocks|
        ensures g.blocks[m] != f.blocks[n]
      {
        assert FlushAt(w, g, m);
      }
    }
  }

  // ----- a flush writes a block -----

  /** What a flush is to write is in the cache. */
  lemma FlushHasBuffer(w: World, f: Flush, m: nat)
    requires Good(w) && FlushGood(w, f) && m < |f.blocks|
    ensures var b := Cell(w.cache, Place(f.key, f.blocks[m])); b.buf.Some? && b.dirty && b.pending && b.refcount > 0
  {
    hide Inv, CleanOnDisk, FlushesGood, ReadsGood, JobsHeld;
    assert FlushAt(w, f, m);
    CellOk(w.cache, Place(f.key, f.blocks[m]));
  }

  /** A block that was written is on the disk as in its buffer; one that failed is marked. */
  ghost predicate Accounted(w: World, id: nat, left: Bytes, failed: set<nat>) {
    && id in w.flushes && w.flushes[id].done < |w.flushes[id].blocks|
    && var at := NextOut(w.flushes[id]);
      failed == {at.block} || (failed == {} && Cell(w.cache, at).buf == Some(left))
  }

  lemma WroteKeepsGood(w: World, id: nat, left: Bytes, failed: set<nat>)
    requires Good(w) && Accounted(w, id, left, failed)
    ensures var v := Wrote(w, id, left, failed);
      Good(v) && forall x :: Content(v, x) == Content(w, x)
  {
    hide Inv, Cell, JobsHeld, FlushGood, Exclusive, ReadGood;
    var v := Wrote(w, id, left, failed);
    var f := w.flushes[id];
    var at := NextOut(f);
    FlushHasBuffer(w, f, f.done);
    forall x
      ensures CleanAt(v, x) && Content(v, x) == Content(w, x)
    {
      assert CleanAt(w, x);
    }
    forall i | i in v.flushes
      ensures FlushGood(v, v.flushes[i])
    {
      WroteKeepsFlush(w, id, left, failed, i);
    }
    WroteKeepsApart(w, id, left, failed);
    forall i | i in v.readers
      ensures ReadGood(v, v.readers[i])
    {
      WroteKeepsRead(w, id, left, failed, i);
    }
  }

  lemma WroteKeepsFlush(w: World, id: nat, left: Bytes, failed: set<nat>, i: nat)
    requires FlushesGood(w) && Accounted(w, id, left, failed) && i in w.flushes
    ensures var v := Wrote(w, id, left, failed); FlushGood(v, v.flushes[i])
  {
    hide Cell;
    var v := Wrote(w, id, left, failed);
    var f, g := w.flushes[id], w.flushes[i];
    assert FlushGood(w, g) && FlushGood(w, f);
    assert i != id ==> Apart(g, f);
    forall m | 0 <= m < |g.blocks|
      ensures FlushAt(v, v.flushes[i], m)
    {
      assert FlushAt(w, g, m);
    }
  }

  lemma WroteKeepsApart(w: World, id: nat, left: Bytes, failed: set<nat>)
    requires Exclusive(w) && Accounted(w, id, left, failed)
    ensures Exclusive(Wrote(w, id, left, failed))
  {
    hide Cell;
    var v := Wrote(w, id, left, failed);
    forall i, j | i in v.flushes && j in v.flushes && i != j
      ensures Apart(v.flushes[i], v.flushes[j])
    {
      assert Apart(w.flushes[i], w.flushes[j]);
    }
  }

  lemma WroteKeepsRead(w: World, id: nat, left: Bytes, failed: set<nat>, i: nat)
    requires Accounted(w, id, left, failed) && i in w.readers && ReadGood(w, w.readers[i])
    ensures var v := Wrote(w, id, left, failed); ReadGood(v, v.readers[i])
  {
    hide Cell;
    var v := Wrote(w, id, left, failed);
    var r := w.readers[i];
    forall m | 0 <= m < |r.data|
      ensures ReadAt(v, v.readers[i], m)
    {
      assert ReadAt(w, r, m);
    }
  }

  /** Writing out a block, or failing to, is seen by nobody while it is being flushed. */
  lemma WriteOutKeepsGood(w: World, e: Event)
    requires Good(w) && Enabled(w, e) && (e.WriteOut? || e.FailOut?)
    ensures Good(Next(w, e)) && forall x :: Content(Next(w, e), x) == Content(w, x)
  {
    hide Good, Wrote, Content, Cell;
    WroteKeepsGood(w, e.id, if e.FailOut? then e.left else Cell(w.cache, NextOut(w.flushes[e.id])).buf.value,
                   if e.FailOut? then {NextOut(w.flushes[e.id]).block} else {});
  }

  // ----- a flush ends -----

  lemma MarkedKeepsJobs(s: State, f: Flush)
    requires Inv(s) && JobsHeld(s) && f.key in s.pieces
    ensures Inv(Marked(s, f.key, f.blocks)) && JobsHeld(Marked(s, f.key, f.blocks))
  {
    hide Sum, Inv, Marked, JobsHeld, Cell;
    var t := Marked(s, f.key, f.blocks);
    MarkedKeepsInv(s, f.key, f.blocks);
    MarkedJobs(s, f);
    forall x
      ensures Cell(t, x).dirty ==> Cell(s, x).dirty
    {
      MarkedCells(s, f, x);
    }
    JobsFollow(s, t);
  }

  lemma MarkedJobs(s: State, f: Flush)
    requires Inv(s) && f.key in s.pieces
    ensures SameJobs(s, Marked(s, f.key, f.blocks))
  {
    hide Sum, FlushIn, PieceOk, Listed;
  }

  lemma MarkedCells(s: State, f: Flush, x: Place)
    requires Inv(s) && f.key in s.pieces
    ensures Cell(Marked(s, f.key, f.blocks), x)
      == if x.key == f.key && x.block in f.blocks && HasBlock(s, x.key, x.block) then FlushDone(Cell(s, x)) else Cell(s, x)
  {
    hide Sum, FlushIn, PieceOk, Listed;
  }

  /** Every write succeeded. */
  ghost predicate AllWritten(w: World, id: nat) {
    id in w.flushes && w.flushes[id].done == |w.flushes[id].blocks| && w.flushes[id].failed == {}
  }

  lemma EndFlushKeepsGood(w: World, id: nat)
    requires Good(w) && Enabled(w, EndFlush(id)) && AllWritten(w, id)
    ensures var v := Next(w, EndFlush(id));
      Good(v) && forall x :: Content(v, x) == Content(w, x)
  {
    hide Sum, Listed, PieceOk, CleanOnDisk, FlushesGood, ReadsGood, JobsHeld, Drifts, Marked, MaybeFreePiece, FinishJobs, Freeable;
    var f := w.flushes[id];
    MarkedKeepsInv(w.cache, f.key, f.blocks);
    MarkedIsGood(w, id);
    var u := w.(cache := Marked(w.cache, f.key, f.blocks), flushes := w.flushes - {id});
    if Freeable(u.cache.pieces[f.key]) {
      MaybeFreeDrifts(u.cache, f.key, w.size);
      MaybeFreeKeepsInv(u.cache, f.key, w.size);
      DriftKeeps(u, MaybeFreePiece(u.cache, f.key, w.size));
    } else {
      FinishKeepsGood(u, f.key);
    }
  }

  lemma MarkedIsGood(w: World, id: nat)
    requires Good(w) && AllWritten(w, id) && w.flushes[id].key in w.cache.pieces
    ensures var f := w.flushes[id];
      var v := w.(cache := Marked(w.cache, f.key, f.blocks), flushes := w.flushes - {id});
      Good(v) && forall x :: Content(v, x) == Content(w, x)
  {
    hide Sum, Inv, JobsHeld, Marked, Cell, FlushGood, Exclusive;
    var f := w.flushes[id];
    var v := w.(cache := Marked(w.cache, f.key, f.blocks), flushes := w.flushes - {id});
    MarkedKeepsJobs(w.cache, f);
    assert FlushGood(w, f);
    forall x
      ensures CleanAt(v, x) && Content(v, x) == Content(w, x)
    {
      MarkedCellIsClean(w, f, x);
    }
    forall i | i in v.flushes
      ensures FlushGood(v, v.flushes[i])
    {
      MarkedKeepsFlush(w, id, i);
    }
    FewerAreApart(w, id, v);
    forall i | i in w.readers
      ensures ReadGood(v, w.readers[i])
    {
      SameDiskKeepsRead(w, v, w.readers[i]);
    }
  }

  lemma FewerAreApart(w: World, id: nat, v: World)
    requires Exclusive(w) && v.flushes == w.flushes - {id}
    ensures Exclusive(v)
  {
  }

  lemma MarkedCellIsClean(w: World, f: Flush, x: Place)
    requires Inv(w.cache) && f.key in w.cache.pieces && FlushGood(w, f) && CleanAt(w, x)
    requires f.done == |f.blocks| && f.failed == {}
    ensures var v := w.(cache := Marked(w.cache, f.key, f.blocks));
      CleanAt(v, x) && Content(v, x) == Content(w, x)
  {
    hide Sum, Inv, Marked, Cell;
    MarkedCells(w.cache, f, x);
    CellOk(w.cache, x);
    if x.key == f.key && x.block in f.blocks {
      var m :| 0 <= m < |f.blocks| && f.blocks[m] == x.block;
      assert FlushAt(w, f, m);
    }
  }

  lemma MarkedKeepsFlush(w: World, id: nat, i: nat)
    requires FlushesGood(w) && Inv(w.cache) && id in w.flushes && i in w.flushes && i != id
    requires w.flushes[id].key in w.cache.pieces
    ensures var f := w.flushes[id];
      FlushGood(w.(cache := Marked(w.cache, f.key, f.blocks), flushes := w.flushes - {id}), w.flushes[i])
  {
    hide Sum, Inv, Marked, Cell;
    var f, g := w.flushes[id], w.flushes[i];
    var v := w.(cache := Marked(w.cache, f.key, f.blocks), flushes := w.flushes - {id});
    assert FlushGood(w, g) && Apart(g, f);
    forall m | 0 <= m < |g.blocks|
      ensures FlushAt(v, g, m)
    {
      assert FlushAt(w, g, m);
      MarkedCells(w.cache, f, Place(g.key, g.blocks[m]));
    }
  }

  // ----- reading -----

  lemma BeginReadKeepsGood(w: World, id: nat, key: Key, first: nat, count: nat)
    requires Good(w) && Enabled(w, BeginRead(id, key, first, count))
    ensures var v := Next(w, BeginRead(id, key, first, count));
      Good(v) && forall x :: Content(v, x) == Content(w, x)
  {
    hide Inv, Cell, JobsHeld;
    var v := Next(w, BeginRead(id, key, first, count));
    SameButReaders(w, v);
    forall i | i in v.readers
      ensures ReadGood(v, v.readers[i])
    {
      if i != id {
        SameDiskKeepsRead(w, v, w.readers[i]);
      }
    }
  }

  /** Nothing but the reads changed. */
  lemma SameButReaders(w: World, v: World)
    requires Good(w) && v == w.(readers := v.readers)
    ensures CleanOnDisk(v) && FlushesGood(v)
    ensures forall x :: Content(v, x) == Content(w, x)
  {
    hide Inv, Cell, JobsHeld;
    forall x
      ensures CleanAt(v, x)
    {
      assert CleanAt(w, x);
    }
    forall i | i in v.flushes
      ensures FlushGood(v, v.flushes[i])
    {
      forall m | 0 <= m < |v.flushes[i].blocks|
        ensures FlushAt(v, v.flushes[i], m)
      {
        assert FlushAt(w, w.flushes[i], m);
      }
    }
  }

  lemma FetchKeepsGood(w: World, id: nat)
    requires Good(w) && Enabled(w, Fetch(id))
    ensures var v := Next(w, Fetch(id));
      Good(v) && forall x :: Content(v, x) == Content(w, x)
  {
    hide Inv, Cell, JobsHeld;
    var v := Next(w, Fetch(id));
    SameButReaders(w, v);
    forall i | i in v.readers
      ensures ReadGood(v, v.readers[i])
    {
      forall m | 0 <= m < |v.readers[i].data|
        ensures ReadAt(v, v.readers[i], m)
      {
        if i != id || m < |w.readers[id].data| {
          assert ReadAt(w, w.readers[i], m);
        }
      }
    }
  }

  lemma InsertCells(s: State, r: Read, inc: bool, hitBlock: nat, x: Place)
    requires Inv(s) && HasBlock(s, r.key, hitBlock) && |r.data| == r.count
    ensures Cell(InsertBlocks(s, r.key, r.first, r.data, inc, hitBlock), x)
      == if x.key == r.key && r.first <= x.block < r.first + r.count && HasBlock(s, x.key, x.block)
         then Inserted(Cell(s, x), r.data[x.block - r.first], inc) else Cell(s, x)
  {
    hide Sum, InsertIn, PieceOk, Listed, CacheHit;
    CacheHitKeepsInv(s, r.key, hitBlock);
  }

  lemma InsertKeepsJobs(s: State, r: Read, inc: bool, hitBlock: nat)
    requires Inv(s) && JobsHeld(s) && HasBlock(s, r.key, hitBlock) && |r.data| == r.count
    ensures JobsHeld(InsertBlocks(s, r.key, r.first, r.data, inc, hitBlock))
  {
    hide Sum, Inv, InsertBlocks, JobsHeld, Cell;
    var t := InsertBlocks(s, r.key, r.first, r.data, inc, hitBlock);
    InsertedJobs(s, r, inc, hitBlock);
    forall x
      ensures Cell(t, x).dirty ==> Cell(s, x).dirty
    {
      InsertCells(s, r, inc, hitBlock, x);
    }
    JobsFollow(s, t);
  }

  lemma InsertedJobs(s: State, r: Read, inc: bool, hitBlock: nat)
    requires Inv(s) && HasBlock(s, r.key, hitBlock)
    ensures SameJobs(s, InsertBlocks(s, r.key, r.first, r.data, inc, hitBlock))
  {
    hide Sum, InsertIn, PieceOk, Listed, CacheHit;
    CacheHitKeepsInv(s, r.key, hitBlock);
  }

  /** Where the read would fill a gap, the disk still holds what was read. */
  ghost predicate Current(w: World, r: Read)
    requires |r.data| == r.count
  {
    forall m :: 0 <= m < r.count ==> CurrentAt(w, r, m)
  }

  predicate CurrentAt(w: World, r: Read, m: nat)
    requires m < |r.data|
  {
    var at := Place(r.key, r.first + m);
    Cell(w.cache, at).buf.None? ==> r.data[m] == DiskAt(w, at)
  }

  /** What a caller can see before it inserts: no missing block of the range was written to
      the disk since it was read. */
  ghost predicate NotOvertaken(w: World, r: Read) {
    forall b :: b in r.rewritten ==> Cell(w.cache, Place(r.key, b)).buf.Some?
  }

  lemma NotOvertakenIsCurrent(w: World, r: Read)
    requires ReadGood(w, r) && |r.data| == r.count && NotOvertaken(w, r)
    ensures Current(w, r)
  {
    hide Cell;
    forall m | 0 <= m < r.count
      ensures CurrentAt(w, r, m)
    {
      assert ReadAt(w, r, m);
    }
  }

  /** Inserting what was read changes nothing for a reader exactly if it is current. */
  lemma EndReadIsInvisibleIff(w: World, id: nat, inc: bool, hitBlock: nat)
    requires Good(w) && Enabled(w, EndRead(id, inc, hitBlock))
    ensures (forall x :: Content(Next(w, EndRead(id, inc, hitBlock)), x) == Content(w, x)) <==> Current(w, w.readers[id])
  {
    hide Inv, JobsHeld, InsertBlocks, CleanOnDisk, FlushesGood, ReadsGood;
    var r := w.readers[id];
    var v := Next(w, EndRead(id, inc, hitBlock));
    if Current(w, r) {
      forall x
        ensures Content(v, x) == Content(w, x)
      {
        InsertCells(w.cache, r, inc, hitBlock, x);
        if x.key == r.key && r.first <= x.block < r.first + r.count {
          assert CurrentAt(w, r, x.block - r.first);
        }
      }
    }
    if forall x :: Content(v, x) == Content(w, x) {
      forall m | 0 <= m < r.count
        ensures CurrentAt(w, r, m)
      {
        InsertCells(w.cache, r, inc, hitBlock, Place(r.key, r.first + m));
        assert Content(v, Place(r.key, r.first + m)) == Content(w, Place(r.key, r.first + m));
      }
    }
  }

  lemma EndReadKeepsGood(w: World, id: nat, inc: bool, hitBlock: nat)
    requires Good(w) && Enabled(w, EndRead(id, inc, hitBlock)) && Current(w, w.readers[id])
    ensures var v := Next(w, EndRead(id, inc, hitBlock));
      Good(v) && forall x :: Content(v, x) == Content(w, x)
  {
    hide Inv, JobsHeld, InsertBlocks, FlushGood, Exclusive, Content, Cell;
    var r := w.readers[id];
    var v := Next(w, EndRead(id, inc, hitBlock));
    EndReadIsInvisibleIff(w, id, inc, hitBlock);
    InsertKeepsInv(w.cache, r.key, r.first, r.data, inc, hitBlock);
    InsertKeepsJobs(w.cache, r, inc, hitBlock);
    forall x
      ensures CleanAt(v, x)
    {
      InsertedIsClean(w, id, inc, hitBlock, x);
    }
    forall i | i in v.flushes
      ensures FlushGood(v, v.flushes[i])
    {
      InsertKeepsFlush(w, id, inc, hitBlock, w.flushes[i]);
    }
    SameFlushesApart(w, v);
    forall i | i in v.readers
      ensures ReadGood(v, v.readers[i])
    {
      SameDiskKeepsRead(w, v, w.readers[i]);
    }
  }

  lemma SameFlushesApart(w: World, v: World)
    requires Exclusive(w) && v.flushes == w.flushes
    ensures Exclusive(v)
  {
  }

  lemma InsertedIsClean(w: World, id: nat, inc: bool, hitBlock: nat, x: Place)
    requires Inv(w.cache) && Enabled(w, EndRead(id, inc, hitBlock)) && Current(w, w.readers[id]) && CleanAt(w, x)
    ensures CleanAt(Next(w, EndRead(id, inc, hitBlock)), x)
  {
    hide Inv, InsertBlocks, Cell;
    var r := w.readers[id];
    InsertCells(w.cache, r, inc, hitBlock, x);
    if x.key == r.key && r.first <= x.block < r.first + r.count {
      assert CurrentAt(w, r, x.block - r.first);
    }
  }

  lemma InsertKeepsFlush(w: World, id: nat, inc: bool, hitBlock: nat, g: Flush)
    requires Inv(w.cache) && Enabled(w, EndRead(id, inc, hitBlock)) && FlushGood(w, g)
    ensures FlushGood(Next(w, EndRead(id, inc, hitBlock)), g)
  {
    hide Inv, InsertBlocks, Cell;
    var v := Next(w, EndRead(id, inc, hitBlock));
    forall m | 0 <= m < |g.blocks|
      ensures FlushAt(v, g, m)
    {
      assert FlushAt(w, g, m);
      InsertCells(w.cache, w.readers[id], inc, hitBlock, Place(g.key, g.blocks[m]));
      CellOk(w.cache, Place(g.key, g.blocks[m]));
    }
  }

  // ----- runs -----

  /** A read is only inserted while it is not overtaken by a write, and a flush is only
      ended if all its writes succeeded. */
  ghost predicate Timely(w: World, e: Event)
    requires Enabled(w, e)
  {
    && (e.EndRead? ==> NotOvertaken(w, w.readers[e.id]))
    && (e.EndFlush? ==> w.flushes[e.id].failed == {})
  }

  /** What one step does to what a block reads as. */
  function Effect(e: Event, at: Place, before: Bytes): Bytes {
    if e.WriteTo? && e.at == at then e.data else before
  }

  /** Every step keeps the invariant, and only a write changes what a block reads as. */
  lemma StepIsCorrect(w: World, e: Event)
    requires Good(w) && Enabled(w, e) && Timely(w, e)
    ensures Good(Next(w, e))
    ensures forall at :: Content(Next(w, e), at) == Effect(e, at, Content(w, at))
  {
    hide Good, Inv, Cell, Content, Next;
    match e
    case WriteTo(at, n, data, job, addHasher, mid) => WriteKeepsGood(w, at, n, data, job, addHasher, mid);
    case BeginFlush(id, key, start, end) => BeginFlushKeepsGood(w, id, key, start, end);
    case WriteOut(_) => WriteOutKeepsGood(w, e);
    case FailOut(_, _) => WriteOutKeepsGood(w, e);
    case EndFlush(id) => EndFlushKeepsGood(w, id);
    case MaybeFree(key) => MaybeFreeKeepsGood(w, key);
    case Mark(key, allowGhost) => MarkKeepsGood(w, key, allowGhost);
    case Evict(after) =>
      EvictKeepsGood(w, after);
      NextIsAfter(w, e, after);
    case Rearrange(after) =>
      RearrangeKeepsGood(w, after);
      NextIsAfter(w, e, after);
    case BeginRead(id, key, first, count) => BeginReadKeepsGood(w, id, key, first, count);
    case Fetch(id) => FetchKeepsGood(w, id);
    case EndRead(id, inc, hitBlock) =>
      ReadIsGood(w, id);
      NotOvertakenIsCurrent(w, w.readers[id]);
      EndReadKeepsGood(w, id, inc, hitBlock);
  }

  lemma NextIsAfter(w: World, e: Event, after: State)
    requires (e == Evict(after) || e == Rearrange(after)) && Enabled(w, e)
    ensures Next(w, e) == w.(cache := after)
  {
  }

  lemma ReadIsGood(w: World, id: nat)
    requires Good(w) && id in w.readers
    ensures ReadGood(w, w.readers[id])
  {
  }

  ghost predicate IsRun(w: World, run: seq<Event>)
    decreases |run|
  {
    run == [] || (Enabled(w, run[0]) && Timely(w, run[0]) && IsRun(Next(w, run[0]), run[1..]))
  }

  ghost function After(w: World, run: seq<Event>): World
    requires IsRun(w, run)
    decreases |run|
  {
    if run == [] then w else After(Next(w, run[0]), run[1..])
  }

  /** The plain store: a block holds what was written to it last. */
  function Stored(run: seq<Event>, at: Place, before: Bytes): Bytes
    decreases |run|
  {
    if run == [] then before else Stored(run[1..], at, Effect(run[0], at, before))
  }

  /** Over every run cache and disk together are the plain store: whatever was written,
      flushed, read back and evicted in between, a block reads as what was last written to
      it, or as what it held at first. */
  lemma {:induction false} RunIsAPlainStore(w: World, run: seq<Event>, at: Place)
    requires Good(w) && IsRun(w, run)
    ensures Good(After(w, run))
    ensures Content(After(w, run), at) == Stored(run, at, Content(w, at))
    decreases |run|
  {
    hide Good, Enabled, Next, Content, Timely;
    if run != [] {
      StepIsCorrect(w, run[0]);
      RunIsAPlainStore(Next(w, run[0]), run[1..], at);
    }
  }

  /** A run of the source as it is, which tests nothing before it inserts a read or ends a
      flush. */
  ghost predicate Possible(w: World, run: seq<Event>)
    decreases |run|
  {
    run == [] || (Enabled(w, run[0]) && Possible(Next(w, run[0]), run[1..]))
  }

  ghost function Reached(w: World, run: seq<Event>): World
    requires Possible(w, run)
    decreases |run|
  {
    if run == [] then w else Reached(Next(w, run[0]), run[1..])
  }

  /** If such a run ends with a block that does not read as what was last written to it, one
      of its steps inserts a read that was overtaken or ends a flush that failed, and up to
      that step all was well. */
  lemma {:induction false} OnlyTwoStepsGoWrong(w: World, run: seq<Event>, at: Place) returns (n: nat)
    requires Good(w) && Possible(w, run) && Content(Reached(w, run), at) != Stored(run, at, Content(w, at))
    ensures n < |run| && IsRun(w, run[..n]) && Good(After(w, run[..n]))
    ensures Enabled(After(w, run[..n]), run[n]) && !Timely(After(w, run[..n]), run[n])
    decreases |run|
  {
    hide Good, Enabled, Next, Content, Timely;
    assert run != [];
    if Timely(w, run[0]) {
      StepIsCorrect(w, run[0]);
      var m := OnlyTwoStepsGoWrong(Next(w, run[0]), run[1..], at);
      n := m + 1;
      assert run[..n][1..] == run[1..][..m];
    } else {
      n := 0;
      assert run[..0] == [];
    }
  }

  function EmptyCache(): State {
    State(map[], [[], [], [], [], [], [], []], CacheMiss)
  }

  /** The cache starts empty. */
  lemma InitialIsGood(disk: map<Place, Bytes>, size: nat)
    requires size > 0
    ensures Good(World(EmptyCache(), disk, map[], map[], size))
    ensures forall at :: Content(World(EmptyCache(), disk, map[], map[], size), at) == if at in disk then disk[at] else ""
  {
  }

  // ----- flushes in flight -----

  /** From its first locked region to its second a flush has its blocks for itself: they
      stay cached, dirty, referenced and marked, and no step touches their buffers. */
  lemma FlushedBlockIsStable(w: World, e: Event, id: nat, m: nat)
    requires Good(w) && Enabled(w, e) && Timely(w, e)
    requires id in w.flushes && id in Next(w, e).flushes && m < |w.flushes[id].blocks|
    ensures var at := Place(w.flushes[id].key, w.flushes[id].blocks[m]);
      var b, c := Cell(w.cache, at), Cell(Next(w, e).cache, at);
      && b.pending && b.dirty && b.buf.Some? && b.refcount > 0
      && c.pending && c.dirty && c.buf.Some? && c.refcount > 0
      && c.buf == b.buf
  {
    hide Inv, Cell, CleanOnDisk, ReadsGood, JobsHeld, Exclusive;
    var v, f := Next(w, e), w.flushes[id];
    StepIsCorrect(w, e);
    SameFlush(w, e, id);
    assert FlushGood(w, f) && FlushGood(v, v.flushes[id]);
    FlushHasBuffer(w, f, m);
    FlushHasBuffer(v, v.flushes[id], m);
    WriteMissesFlush(w, e, id, m);
    var at := Place(f.key, f.blocks[m]);
    assert Content(v, at) == Effect(e, at, Content(w, at)) == Content(w, at);
  }

  lemma SameFlush(w: World, e: Event, id: nat)
    requires Enabled(w, e) && id in w.flushes && id in Next(w, e).flushes
    ensures Next(w, e).flushes[id].blocks == w.flushes[id].blocks && Next(w, e).flushes[id].key == w.flushes[id].key
  {
    hide Inv, Cell;
  }

  /** A write never goes to a block that is being flushed. */
  lemma WriteMissesFlush(w: World, e: Event, id: nat, m: nat)
    requires Good(w) && Enabled(w, e) && id in w.flushes && m < |w.flushes[id].blocks|
    ensures e.WriteTo? ==> e.at != Place(w.flushes[id].key, w.flushes[id].blocks[m])
  {
    hide Inv, CleanOnDisk, ReadsGood, JobsHeld, Exclusive;
    if e.WriteTo? {
      assert FlushGood(w, w.flushes[id]);
      FlushHasBuffer(w, w.flushes[id], m);
    }
  }
}
