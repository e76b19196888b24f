/** The cache and the disk behind it, with the flushes and reads that run without the lock.
    Each locked region of disk_io_thread.cpp is one step. Together they behave like one
    plain store of blocks. */
module CacheSystem {
  import opened Options
  import opened CacheModel
  import opened CacheOps
  import opened CacheFill
  import CacheEvict
  import CacheFlush

  datatype Place = Place(key: Key, block: nat)

  /** A flush between its two locked regions: it went through done of its blocks, and of
      these failed are the ones that could not be written. */
  datatype Flush = Flush(key: Key, blocks: seq<nat>, done: nat, failed: set<nat>)

  /** A read between its two locked regions: data was read from first on. rewritten are
      the blocks that went to the disk after they were read. */
  datatype Read = Read(key: Key, first: nat, count: nat, data: seq<Bytes>, rewritten: set<nat>)

  /** size is the limit of the ghost lists. */
  datatype World = World(cache: State, disk: map<Place, Bytes>, flushes: map<nat, Flush>, readers: map<nat, Read>,
                         size: nat)

  /** The block at a place; an empty one if its piece is not in the cache. */
  function Cell(s: State, at: Place): Block {
    if HasBlock(s, at.key, at.block) then s.pieces[at.key].blocks[at.block] else EMPTY_BLOCK
  }

  function DiskAt(w: World, at: Place): Bytes {
    if at in w.disk then w.disk[at] else ""
  }

  /** What a block holds for a reader: its buffer if there is one, the disk otherwise. */
  function Content(w: World, at: Place): Bytes {
    var b := Cell(w.cache, at);
    if b.buf.Some? then b.buf.value else DiskAt(w, at)
  }

  datatype Event =
    | WriteTo(at: Place, n: nat, data: Bytes, job: nat, addHasher: bool, mid: State)
    | BeginFlush(id: nat, key: Key, start: nat, end: nat)
    | WriteOut(id: nat)
    | FailOut(id: nat, left: Bytes)   // the write fails and leaves anything at its place
    | EndFlush(id: nat)
    | MaybeFree(key: Key)
    | Mark(key: Key, allowGhost: bool)
    | Evict(after: State)
    | Rearrange(after: State)
    | BeginRead(id: nat, key: Key, first: nat, count: nat)
    | Fetch(id: nat)
    | EndRead(id: nat, inc: bool, hitBlock: nat)

  // ----- steps that keep what is cached -----

  /** Buffer and state of a block are the same. */
  predicate Same(b: Block, c: Block) {
    c.buf == b.buf && c.dirty == b.dirty && c.pending == b.pending
  }

  /** Or a clean block that is not being written was dropped. */
  predicate Drift(b: Block, c: Block) {
    Same(b, c) || (b.buf.Some? && !b.dirty && !b.pending && c.buf.None? && !c.dirty && !c.pending)
  }

  ghost predicate Drifts(s: State, t: State) {
    forall at :: Drift(Cell(s, at), Cell(t, at))
  }

  predicate HasJob(jobs: seq<Job>, i: nat) {
    exists j :: j in jobs && j.block == i
  }

  /** For every dirty block a job waits at the piece. */
  ghost predicate Awaited(p: Piece) {
    forall i :: 0 <= i < |p.blocks| && p.blocks[i].dirty ==> HasJob(p.jobs, i)
  }

  ghost predicate JobsHeld(s: State) {
    forall k :: k in s.pieces ==> Awaited(s.pieces[k])
  }

  /** Pieces keep their jobs, and a new one has none. */
  ghost predicate SameJobs(s: State, t: State) {
    forall k :: k in t.pieces ==> t.pieces[k].jobs == if k in s.pieces then s.pieces[k].jobs else []
  }

  /** References, lists and flags change, but no buffer: hits, hashing, borrowed blocks. */
  ghost predicate Rearranged(s: State, t: State) {
    Inv(t) && SameJobs(s, t) && forall at :: Same(Cell(s, at), Cell(t, at))
  }

  // ----- one step -----

  ghost predicate Enabled(w: World, e: Event) {
    match e
    case WriteTo(at, n, _, _, _, mid) =>
      && Inv(w.cache) && CacheFlush.CanWrite(w.cache, at.key, n, at.block)
      && Inv(mid) && HasBlock(mid, at.key, at.block) && mid.pieces[at.key].cacheState == WRITE_LRU
      && CacheEvict.Evicted(AllocatePiece(w.cache, at.key, n, WRITE_LRU), mid)
      && CacheEvict.Spared(AllocatePiece(w.cache, at.key, n, WRITE_LRU), mid, at.key)
    case BeginFlush(id, key, start, end) =>
      id !in w.flushes && key in w.cache.pieces && end <= |w.cache.pieces[key].blocks|
    case WriteOut(id) =>
      && id in w.flushes && w.flushes[id].done < |w.flushes[id].blocks|
      && Cell(w.cache, NextOut(w.flushes[id])).buf.Some?
    case FailOut(id, _) =>
      && id in w.flushes && w.flushes[id].done < |w.flushes[id].blocks|
      && Cell(w.cache, NextOut(w.flushes[id])).buf.Some?
    case EndFlush(id) =>
      && id in w.flushes && w.flushes[id].done == |w.flushes[id].blocks|
      && Inv(w.cache) && w.flushes[id].key in w.cache.pieces && w.size > 0
    case MaybeFree(key) => Inv(w.cache) && key in w.cache.pieces && w.size > 0
    case Mark(key, _) => Inv(w.cache) && key in w.cache.pieces && w.cache.pieces[key].jobs == [] && w.size > 0
    case Evict(after) => Inv(after) && CacheEvict.Evicted(w.cache, after)
    case Rearrange(after) => Rearranged(w.cache, after)
    case BeginRead(id, _, _, _) => id !in w.readers
    case Fetch(id) => id in w.readers && |w.readers[id].data| < w.readers[id].count
    case EndRead(id, _, hitBlock) =>
      && id in w.readers && |w.readers[id].data| == w.readers[id].count
      && Inv(w.cache) && HasBlock(w.cache, w.readers[id].key, hitBlock)
      && w.readers[id].first + w.readers[id].count <= |w.cache.pieces[w.readers[id].key].blocks|
  }

  /** The block a flush writes next. */
  function NextOut(f: Flush): Place
    requires f.done < |f.blocks|
  {
    Place(f.key, f.blocks[f.done])
  }

  /** A block that was read already is written: the read has an older version. */
  function Rewritten(r: Read, at: Place): Read {
    if r.key == at.key && r.first <= at.block < r.first + |r.data|
    then r.(rewritten := r.rewritten + {at.block})
    else r
  }

  /** The next block of a flush is left on the disk as left. */
  function Wrote(w: World, id: nat, left: Bytes, failed: set<nat>): World
    requires id in w.flushes && w.flushes[id].done < |w.flushes[id].blocks|
  {
    var f := w.flushes[id];
    var at := NextOut(f);
    w.(disk := w.disk[at := left],
       flushes := w.flushes[id := f.(done := f.done + 1, failed := f.failed + failed)],
       readers := map i | i in w.readers :: Rewritten(w.readers[i], at))
  }

  ghost function Next(w: World, e: Event): World
    requires Enabled(w, e)
  {
    match e
    case WriteTo(at, n, data, job, addHasher, mid) =>
      w.(cache := WriteBlock(mid, at.key, at.block, data, job, addHasher))
    case BeginFlush(id, key, start, end) =>
      w.(cache := StartFlush(w.cache, key, start, end),
         flushes := w.flushes[id := Flush(key, CacheFlush.Chosen(w.cache.pieces[key].blocks, start, end), 0, {})])
    case WriteOut(id) => Wrote(w, id, Cell(w.cache, NextOut(w.flushes[id])).buf.value, {})
    case FailOut(id, left) => Wrote(w, id, left, {NextOut(w.flushes[id]).block})
    case EndFlush(id) =>
      var f := w.flushes[id];
      w.(cache := IovecFlushed(w.cache, f.key, f.blocks, f.failed != {}, w.size), flushes := w.flushes - {id})
    case MaybeFree(key) => w.(cache := MaybeFreePiece(w.cache, key, w.size))
    case Mark(key, allowGhost) => w.(cache := MarkForEviction(w.cache, key, allowGhost, w.size))
    case Evict(after) => w.(cache := after)
    case Rearrange(after) => w.(cache := after)
    case BeginRead(id, key, first, count) => w.(readers := w.readers[id := Read(key, first, count, [], {})])
    case Fetch(id) =>
      var r := w.readers[id];
      w.(readers := w.readers[id := r.(data := r.data + [DiskAt(w, Place(r.key, r.first + |r.data|))])])
    case EndRead(id, inc, hitBlock) =>
      var r := w.readers[id];
      w.(cache := InsertBlocks(w.cache, r.key, r.first, r.data, inc, hitBlock), readers := w.readers - {id})
  }

  // ----- the invariant -----

  /** A clean buffer holds what is on the disk. */
  ghost predicate CleanOnDisk(w: World) {
    forall at :: CleanAt(w, at)
  }

  predicate CleanAt(w: World, at: Place) {
    var b := Cell(w.cache, at);
    b.buf.Some? && !b.dirty ==> b.buf.value == DiskAt(w, at)
  }

  /** The blocks of a flush are distinct and being written; those written out are on disk. */
  ghost predicate FlushGood(w: World, f: Flush) {
    && f.done <= |f.blocks|
    && (forall i :: i in f.failed ==> i in f.blocks)
    && (forall i, j :: 0 <= i < j < |f.blocks| ==> f.blocks[i] != f.blocks[j])
    && (forall m :: 0 <= m < |f.blocks| ==> FlushAt(w, f, m))
  }

  predicate FlushAt(w: World, f: Flush, m: nat)
    requires m < |f.blocks|
  {
    var at := Place(f.key, f.blocks[m]);
    var b := Cell(w.cache, at);
    b.pending && (m < f.done && f.blocks[m] !in f.failed && b.buf.Some? ==> b.buf.value == DiskAt(w, at))
  }

  /** No block is in two flushes. */
  ghost predicate Exclusive(w: World) {
    forall i, j :: i in w.flushes && j in w.flushes && i != j ==> Apart(w.flushes[i], w.flushes[j])
  }

  ghost predicate Apart(f: Flush, g: Flush) {
    f.key == g.key ==> forall m, n :: 0 <= m < |f.blocks| && 0 <= n < |g.blocks| ==> f.blocks[m] != g.blocks[n]
  }

  /** What was read and not rewritten since is what the disk holds. */
  ghost predicate ReadGood(w: World, r: Read) {
    && |r.data| <= r.count
    && (forall b :: b in r.rewritten ==> r.first <= b < r.first + |r.data|)
    && forall m :: 0 <= m < |r.data| ==> ReadAt(w, r, m)
  }

  predicate ReadAt(w: World, r: Read, m: nat)
    requires m < |r.data|
  {
    r.first + m !in r.rewritten ==> r.data[m] == DiskAt(w, Place(r.key, r.first + m))
  }

  ghost predicate FlushesGood(w: World) {
    (forall id :: id in w.flushes ==> FlushGood(w, w.flushes[id])) && Exclusive(w)
  }

  ghost predicate ReadsGood(w: World) {
    forall id :: id in w.readers ==> ReadGood(w, w.readers[id])
  }

  ghost predicate Good(w: World) {
    Inv(w.cache) && w.size > 0 && JobsHeld(w.cache) && CleanOnDisk(w) && FlushesGood(w) && ReadsGood(w)
  }

  /** Where no more is dirty than before and the jobs are the same, jobs still wait. */
  lemma JobsFollow(s: State, t: State)
    requires JobsHeld(s) && SameJobs(s, t)
    requires forall at :: Cell(t, at).dirty ==> Cell(s, at).dirty
    ensures JobsHeld(t)
  {
    forall k | k in t.pieces
      ensures Awaited(t.pieces[k])
    {
      forall i | 0 <= i < |t.pieces[k].blocks| && t.pieces[k].blocks[i].dirty
        ensures HasJob(t.pieces[k].jobs, i)
      {
        assert Cell(t, Place(k, i)).dirty;
        assert Awaited(s.pieces[k]);
      }
    }
  }

  /** A cell is a well-formed block. */
  lemma CellOk(s: State, at: Place)
    requires Inv(s)
    ensures BlockOk(Cell(s, at))
  {
    hide Sum;
    if HasBlock(s, at.key, at.block) {
      assert PieceOk(s.pieces[at.key]);
    }
  }

  // ----- steps in which the cache drifts -----

  /** Dropping clean blocks and rearranging the rest changes nothing for a reader. */
  lemma DriftKeeps(w: World, t: State)
    requires Good(w) && Inv(t) && JobsHeld(t) && Drifts(w.cache, t)
    ensures Good(w.(cache := t))
    ensures forall at :: Content(w.(cache := t), at) == Content(w, at)
  {
    hide Inv, JobsHeld, Cell;
    var v := w.(cache := t);
    forall at
      ensures CleanAt(v, at) && Content(v, at) == Content(w, at)
    {
      assert Drift(Cell(w.cache, at), Cell(t, at)) && CleanAt(w, at);
    }
    forall id | id in w.flushes
      ensures FlushGood(v, w.flushes[id])
    {
      DriftKeepsFlush(w, t, w.flushes[id]);
    }
    forall id | id in w.readers
      ensures ReadGood(v, w.readers[id])
    {
      SameDiskKeepsRead(w, v, w.readers[id]);
    }
  }

  lemma DriftKeepsFlush(w: World, t: State, f: Flush)
    requires FlushGood(w, f) && Drifts(w.cache, t)
    ensures FlushGood(w.(cache := t), f)
  {
    hide Cell;
    forall m | 0 <= m < |f.blocks|
      ensures FlushAt(w.(cache := t), f, m)
    {
      var at := Place(f.key, f.blocks[m]);
      assert FlushAt(w, f, m) && Drift(Cell(w.cache, at), Cell(t, at));
    }
  }

  lemma SameDiskKeepsRead(w: World, v: World, r: Read)
    requires ReadGood(w, r) && v.disk == w.disk
    ensures ReadGood(v, r)
  {
    forall m | 0 <= m < |r.data|
      ensures ReadAt(v, r, m)
    {
      assert ReadAt(w, r, m);
    }
  }

  /** What try_evict_blocks() does is such a step. */
  lemma EvictedDrifts(s: State, t: State)
    requires Inv(s) && CacheEvict.Evicted(s, t)
    ensures Drifts(s, t)
  {
    hide Sum;
    forall at
      ensures Drift(Cell(s, at), Cell(t, at))
    {
      EvictedCell(s, t, at);
    }
  }

  lemma EvictedCell(s: State, t: State, at: Place)
    requires Inv(s) && CacheEvict.Evicted(s, t)
    ensures Drift(Cell(s, at), Cell(t, at))
  {
    hide Inv, Cell, Drift, CacheEvict.Evicted, CacheEvict.Kept, CacheEvict.Expendable;
    CellOk(s, at);
    EvictedAt(s, t, at.key);
    CellsDrift(s, t, at);
  }

  lemma CellsDrift(s: State, t: State, at: Place)
    requires BlockOk(Cell(s, at))
    requires at.key in t.pieces ==> at.key in s.pieces && CacheEvict.Kept(s.pieces[at.key], t.pieces[at.key])
    requires at.key in s.pieces && at.key !in t.pieces ==> CacheEvict.Expendable(s.pieces[at.key])
    ensures Drift(Cell(s, at), Cell(t, at))
  {
    hide CacheEvict.Kept, CacheEvict.Expendable;
    if at.key in t.pieces {
      KeptCell(s.pieces[at.key], t.pieces[at.key], at.block);
    } else if at.key in s.pieces {
      LostCell(s.pieces[at.key], at.block);
    }
  }

  lemma EvictedAt(s: State, t: State, k: Key)
    requires CacheEvict.Evicted(s, t)
    ensures k in t.pieces ==> k in s.pieces && CacheEvict.Kept(s.pieces[k], t.pieces[k])
    ensures k in s.pieces && k !in t.pieces ==> CacheEvict.Expendable(s.pieces[k])
  {
  }

  lemma LostCell(p: Piece, i: nat)
    requires CacheEvict.Expendable(p)
    ensures i < |p.blocks| && BlockOk(p.blocks[i]) ==> Drift(p.blocks[i], EMPTY_BLOCK)
  {
  }

  lemma KeptCell(p: Piece, q: Piece, i: nat)
    requires CacheEvict.Kept(p, q)
    ensures |q.blocks| == |p.blocks|
    ensures i < |p.blocks| && BlockOk(p.blocks[i]) ==> Drift(p.blocks[i], q.blocks[i])
  {
    if i < |p.blocks| {
      assert CacheEvict.ThinnerAt(p.blocks[i], q.blocks[i]);
    }
  }

  lemma EvictedKeepsJobs(s: State, t: State)
    requires Inv(s) && JobsHeld(s) && CacheEvict.Evicted(s, t)
    ensures JobsHeld(t)
  {
    hide Inv, JobsHeld, Cell, CacheEvict.Expendable, CacheEvict.Thinner;
    EvictedDrifts(s, t);
    forall at
      ensures Cell(t, at).dirty ==> Cell(s, at).dirty
    {
      assert Drift(Cell(s, at), Cell(t, at));
    }
    forall k | k in t.pieces
      ensures k in s.pieces && t.pieces[k].jobs == s.pieces[k].jobs
    {
      assert CacheEvict.Kept(s.pieces[k], t.pieces[k]);
    }
    JobsFollow(s, t);
  }

  lemma EvictKeepsGood(w: World, t: State)
    requires Good(w) && Enabled(w, Evict(t))
    ensures Good(w.(cache := t))
    ensures forall at :: Content(w.(cache := t), at) == Content(w, at)
  {
    hide Sum, Drifts, CleanOnDisk, FlushesGood, ReadsGood, CacheEvict.Evicted;
    EvictedDrifts(w.cache, t);
    EvictedKeepsJobs(w.cache, t);
    DriftKeeps(w, t);
  }

  lemma RearrangeKeepsGood(w: World, t: State)
    requires Good(w) && Rearranged(w.cache, t)
    ensures Good(w.(cache := t))
    ensures forall at :: Content(w.(cache := t), at) == Content(w, at)
  {
    hide Inv, Cell, CleanOnDisk, FlushesGood, ReadsGood, JobsHeld, SameJobs;
    forall at
      ensures Drift(Cell(w.cache, at), Cell(t, at))
      ensures Cell(t, at).dirty ==> Cell(w.cache, at).dirty
    {
      assert Same(Cell(w.cache, at), Cell(t, at));
    }
    JobsFollow(w.cache, t);
    DriftKeeps(w, t);
  }

  // ----- giving up a piece -----

  /** Because dirty blocks have jobs, maybe_free_piece() never drops one. */
  lemma FreedHasNothingDirty(p: Piece)
    requires PieceOk(p) && Freeable(p) && Awaited(p)
    ensures CacheEvict.Expendable(p)
  {
    hide Sum;
    SumIsZero(p.blocks, Refs);
    forall i | 0 <= i < |p.blocks| && p.blocks[i].buf.Some?
      ensures Drops(DropClean, p.blocks[i])
    {
      assert BlockOk(p.blocks[i]) && Weigh(p.blocks[i], Refs) == 0;
    }
  }

  /** What evict_piece() leaves of a piece without jobs. */
  lemma LeftDrifts(s: State, k: Key, left: Piece)
    requires Inv(s) && JobsHeld(s) && k in s.pieces && s.pieces[k].jobs == []
    requires left.blocks == MapBlocks(s.pieces[k].blocks, DropUnreferenced) && left.jobs == []
    ensures Drifts(s, Put(s, k, left)) && JobsHeld(Put(s, k, left))
  {
    hide Inv, MapBlocks, JobsHeld, Cell;
    var t := Put(s, k, left);
    NothingDirty(s, k);
    forall at
      ensures Drift(Cell(s, at), Cell(t, at))
      ensures Cell(t, at).dirty ==> Cell(s, at).dirty
    {
      CellOk(s, at);
      LeftAt(s, k, left, at);
    }
    JobsFollow(s, t);
  }

  lemma LeftAt(s: State, k: Key, left: Piece, at: Place)
    requires k in s.pieces && left.blocks == MapBlocks(s.pieces[k].blocks, DropUnreferenced)
    requires BlockOk(Cell(s, at)) && forall i :: 0 <= i < |s.pieces[k].blocks| ==> !s.pieces[k].blocks[i].dirty
    ensures Drift(Cell(s, at), Cell(Put(s, k, left), at))
  {
    hide MapBlocks, BlockOk, Drift;
    if at.key == k && at.block < |left.blocks| {
      LeftCell(s.pieces[k], at.block);
    } else {
      assert Cell(Put(s, k, left), at) == Cell(s, at);
      SameDrifts(Cell(s, at));
    }
  }

  lemma SameDrifts(b: Block)
    ensures Drift(b, b)
  {
  }

  lemma NothingDirty(s: State, k: Key)
    requires JobsHeld(s) && k in s.pieces && s.pieces[k].jobs == []
    ensures forall i :: 0 <= i < |s.pieces[k].blocks| ==> !s.pieces[k].blocks[i].dirty
  {
    assert Awaited(s.pieces[k]);
  }

  lemma LeftCell(p: Piece, i: nat)
    requires i < |p.blocks| && BlockOk(p.blocks[i]) && !p.blocks[i].dirty
    ensures Drift(p.blocks[i], MapBlocks(p.blocks, DropUnreferenced)[i])
  {
    hide MapBlocks;
  }

  lemma EmptiedInv(s: State, k: Key, left: Piece)
    requires Inv(s) && k in s.pieces
    requires left == Recount(s.pieces[k], MapBlocks(s.pieces[k].blocks, DropUnreferenced))
    requires OkToEvict(left, true) && left.numBlocks == 0
    ensures var p := left.(hash := None, jobs := []); Inv(Put(s, k, p)) && OkToEvict(p, false)
  {
    hide Sum, Listed;
    assert PieceOk(s.pieces[k]);
    MapKeepsPieceOk(s.pieces[k], DropUnreferenced);
    PutKeepsInv(s, k, left.(hash := None, jobs := []));
  }

  /** Evicting a piece without jobs drops nothing but clean blocks nobody refers to. */
  lemma EvictPieceDrifts(s: State, k: Key, allowGhost: bool, size: nat)
    requires Inv(s) && JobsHeld(s) && k in s.pieces && size > 0 && s.pieces[k].jobs == []
    ensures var t := EvictPiece(s, k, allowGhost, size).state; Drifts(s, t) && JobsHeld(t)
  {
    hide Sum, Inv, OkToEvict, MapBlocks, Drifts, JobsHeld, MoveToGhost;
    var p := s.pieces[k];
    var left := Recount(p, MapBlocks(p.blocks, DropUnreferenced));
    if OkToEvict(left, true) && left.numBlocks == 0 {
      var emptied := left.(hash := None, jobs := []);
      var t := Put(s, k, emptied);
      EmptiedInv(s, k, left);
      LeftDrifts(s, k, emptied);
      if allowGhost && IsGhost(p.cacheState) {
      } else if !allowGhost || p.cacheState == WRITE_LRU || p.cacheState == VOLATILE_READ_LRU {
        RemovedDrifts(s, t, k);
      } else {
        GhostDrifts(s, t, k, size);
      }
    } else {
      LeftDrifts(s, k, left);
    }
  }

  lemma MaybeFreeDrifts(s: State, k: Key, size: nat)
    requires Inv(s) && JobsHeld(s) && k in s.pieces && size > 0
    ensures Drifts(s, MaybeFreePiece(s, k, size)) && JobsHeld(MaybeFreePiece(s, k, size))
  {
    hide Inv, EvictPiece, JobsHeld;
    if Freeable(s.pieces[k]) {
      EvictPieceDrifts(s, k, !s.pieces[k].markedForDeletion, size);
    }
  }

  lemma DriftsTwice(s: State, t: State, u: State)
    requires Drifts(s, t) && Drifts(t, u)
    ensures Drifts(s, u)
  {
    hide Cell;
    forall at
      ensures Drift(Cell(s, at), Cell(u, at))
    {
      assert Drift(Cell(s, at), Cell(t, at)) && Drift(Cell(t, at), Cell(u, at));
    }
  }

  lemma RemovedDrifts(s: State, t: State, k: Key)
    requires Drifts(s, t) && Inv(t) && k in t.pieces && JobsHeld(t)
    requires t.pieces[k].numBlocks == 0 && OkToEvict(t.pieces[k], false)
    ensures Drifts(s, Remove(t, k)) && JobsHeld(Remove(t, k))
  {
    hide Sum, PieceOk, CacheEvict.Evicted, Drifts;
    assert PieceOk(t.pieces[k]);
    CacheEvict.EmptyIsExpendable(t.pieces[k]);
    CacheEvict.RemoveEvicts(t, k);
    EvictedDrifts(t, Remove(t, k));
    EvictedKeepsJobs(t, Remove(t, k));
    DriftsTwice(s, t, Remove(t, k));
  }

  lemma GhostDrifts(s: State, t: State, k: Key, size: nat)
    requires Drifts(s, t) && Inv(t) && k in t.pieces && JobsHeld(t) && size > 0
    requires t.pieces[k].numBlocks == 0 && OkToEvict(t.pieces[k], false)
    ensures Drifts(s, MoveToGhost(t, k, size)) && JobsHeld(MoveToGhost(t, k, size))
  {
    hide Sum, PieceOk, Listed, CacheEvict.Evicted, Drifts, MoveToGhost;
    CacheEvict.GhostEvicts(t, k, size);
    EvictedDrifts(t, MoveToGhost(t, k, size));
    EvictedKeepsJobs(t, MoveToGhost(t, k, size));
    DriftsTwice(s, t, MoveToGhost(t, k, size));
  }

  lemma MaybeFreeKeepsGood(w: World, k: Key)
    requires Good(w) && Enabled(w, MaybeFree(k))
    ensures Good(Next(w, MaybeFree(k)))
    ensures forall at :: Content(Next(w, MaybeFree(k)), at) == Content(w, at)
  {
    hide Sum, Listed, PieceOk, Drifts, CleanOnDisk, FlushesGood, ReadsGood, MaybeFreePiece, JobsHeld;
    MaybeFreeDrifts(w.cache, k, w.size);
    MaybeFreeKeepsInv(w.cache, k, w.size);
    DriftKeeps(w, MaybeFreePiece(w.cache, k, w.size));
  }

  lemma MarkKeepsGood(w: World, k: Key, allowGhost: bool)
    requires Good(w) && Enabled(w, Mark(k, allowGhost))
    ensures Good(Next(w, Mark(k, allowGhost)))
    ensures forall at :: Content(Next(w, Mark(k, allowGhost)), at) == Content(w, at)
  {
    hide Sum, Listed, PieceOk, Drifts, CleanOnDisk, FlushesGood, ReadsGood, EvictPiece, JobsHeld;
    var e := EvictPiece(w.cache, k, allowGhost, w.size);
    NotEvicted(w.cache, k, allowGhost, w.size);
    EvictPieceDrifts(w.cache, k, allowGhost, w.size);
    MarkKeepsInv(w.cache, k, allowGhost, w.size);
    if !e.evicted {
      FlagsDrift(w.cache, e.state, k, allowGhost);
    }
    DriftKeeps(w, MarkForEviction(w.cache, k, allowGhost, w.size));
  }

  lemma NotEvicted(s: State, k: Key, allowGhost: bool, size: nat)
    requires Listed(s) && k in s.pieces && size > 0
    ensures var e := EvictPiece(s, k, allowGhost, size); !e.evicted ==> k in e.state.pieces
  {
    hide Sum;
  }

  lemma FlagsDrift(s: State, t: State, k: Key, allowGhost: bool)
    requires Drifts(s, t) && JobsHeld(t) && k in t.pieces
    ensures var u := Put(t, k, t.pieces[k].(markedForEviction := true, markedForDeletion := !allowGhost));
      Drifts(s, u) && JobsHeld(u)
  {
    var u := Put(t, k, t.pieces[k].(markedForEviction := true, markedForDeletion := !allowGhost));
    forall at
      ensures Cell(u, at) == Cell(t, at)
    {
    }
    forall at
      ensures Drift(Cell(s, at), Cell(u, at))
    {
      assert Drift(Cell(s, at), Cell(t, at));
    }
    JobsFollow(t, u);
  }

  /** Jobs that are answered are those of blocks that were written. */
  lemma FinishKeepsGood(w: World, k: Key)
    requires Good(w) && k in w.cache.pieces
    ensures var v := w.(cache := FinishJobs(w.cache, k, false));
      Good(v) && forall at :: Content(v, at) == Content(w, at)
  {
    hide Inv, CleanOnDisk, FlushesGood, ReadsGood, Unfinished;
    var t := FinishJobs(w.cache, k, false);
    FinishKeepsInv(w.cache, k, false);
    FinishKeepsAwaited(w.cache.pieces[k]);
    forall at
      ensures Drift(Cell(w.cache, at), Cell(t, at))
    {
      assert Cell(t, at) == Cell(w.cache, at);
    }
    DriftKeeps(w, t);
  }

  lemma FinishKeepsAwaited(p: Piece)
    requires Awaited(p)
    ensures Awaited(p.(jobs := JobsLeft(p, false)))
  {
    hide Unfinished;
    forall i | 0 <= i < |p.blocks| && p.blocks[i].dirty
      ensures HasJob(JobsLeft(p, false), i)
    {
      var j :| j in p.jobs && j.block == i;
      assert j in JobsLeft(p, false);
    }
  }
}
