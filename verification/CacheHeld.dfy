/** Blocks that are referenced for hashing or reading: no step takes their buffer away or
    replaces it, and the operations that take such references are steps of the cache. */
module CacheHeld {
  import opened Options
  import opened CacheModel
  import opened CacheOps
  import opened CacheFill
  import opened CacheSystem
  import opened CacheRuns
  import CacheEvict
  import CacheFlush
  import CacheRead
  import CacheHash
  import HashCursor

  // ----- what a reference protects -----

  predicate InUse(b: Block) {
    b.hashing > 0 || b.reading > 0
  }

  /** A block in use still is, with the same buffer. */
  predicate Firm(b: Block, c: Block) {
    InUse(b) ==> InUse(c) && c.buf == b.buf
  }

  lemma EvictedIsFirm(s: State, t: State, at: Place)
    requires Inv(s) && CacheEvict.Evicted(s, t)
    ensures Firm(Cell(s, at), Cell(t, at))
  {
    hide Inv, CacheEvict.Evicted, CacheEvict.Kept, CacheEvict.Expendable;
    CellOk(s, at);
    EvictedAt(s, t, at.key);
    if at.key in t.pieces {
      KeptIsFirm(s.pieces[at.key], t.pieces[at.key], at.block);
    } else if at.key in s.pieces {
      LostIsIdle(s.pieces[at.key], at.block);
    }
  }

  lemma KeptIsFirm(p: Piece, q: Piece, i: nat)
    requires CacheEvict.Kept(p, q)
    ensures |q.blocks| == |p.blocks|
    ensures i < |p.blocks| && BlockOk(p.blocks[i]) ==> Firm(p.blocks[i], q.blocks[i])
  {
    if i < |p.blocks| {
      assert CacheEvict.ThinnerAt(p.blocks[i], q.blocks[i]);
    }
  }

  lemma LostIsIdle(p: Piece, i: nat)
    requires CacheEvict.Expendable(p)
    ensures i < |p.blocks| && BlockOk(p.blocks[i]) ==> !InUse(p.blocks[i])
  {
  }

  lemma DroppedIsFirm(s: State, k: Key, left: Piece, at: Place)
    requires k in s.pieces && left.blocks == MapBlocks(s.pieces[k].blocks, DropUnreferenced) && BlockOk(Cell(s, at))
    ensures Firm(Cell(s, at), Cell(Put(s, k, left), at))
  {
    hide MapBlocks, Sum;
  }

  lemma FirmTwice(b: Block, c: Block, d: Block)
    requires Firm(b, c) && Firm(c, d)
    ensures Firm(b, d)
  {
  }

  lemma EvictPieceIsFirm(s: State, k: Key, allowGhost: bool, size: nat, at: Place)
    requires Inv(s) && k in s.pieces && size > 0
    ensures Firm(Cell(s, at), Cell(EvictPiece(s, k, allowGhost, size).state, at))
  {
    hide Sum, Listed, PieceOk, OkToEvict, MapBlocks, MoveToGhost, Cell, Firm, CacheEvict.Evicted, CacheEvict.Expendable;
    CellOk(s, at);
    var p := s.pieces[k];
    var left := Recount(p, MapBlocks(p.blocks, DropUnreferenced));
    if OkToEvict(left, true) && left.numBlocks == 0 {
      var emptied := left.(hash := None, jobs := []);
      var t := Put(s, k, emptied);
      EmptiedInv(s, k, left);
      DroppedIsFirm(s, k, emptied, at);
      if allowGhost && IsGhost(p.cacheState) {
      } else if !allowGhost || p.cacheState == WRITE_LRU || p.cacheState == VOLATILE_READ_LRU {
        assert PieceOk(t.pieces[k]);
        InvListed(t, k);
        CacheEvict.EmptyIsExpendable(emptied);
        CacheEvict.RemoveEvicts(t, k);
        EvictedIsFirm(t, Remove(t, k), at);
        FirmTwice(Cell(s, at), Cell(t, at), Cell(Remove(t, k), at));
      } else {
        CacheEvict.GhostEvicts(t, k, size);
        EvictedIsFirm(t, MoveToGhost(t, k, size), at);
        FirmTwice(Cell(s, at), Cell(t, at), Cell(MoveToGhost(t, k, size), at));
      }
    } else {
      DroppedIsFirm(s, k, left, at);
    }
  }

  lemma MaybeFreeIsFirm(s: State, k: Key, size: nat, at: Place)
    requires Inv(s) && k in s.pieces && size > 0
    ensures Firm(Cell(s, at), Cell(MaybeFreePiece(s, k, size), at))
  {
    hide Sum, Listed, PieceOk, EvictPiece, Cell;
    EvictPieceIsFirm(s, k, !s.pieces[k].markedForDeletion, size, at);
  }

  lemma MarkIsFirm(s: State, k: Key, allowGhost: bool, size: nat, at: Place)
    requires Inv(s) && k in s.pieces && size > 0
    ensures Firm(Cell(s, at), Cell(MarkForEviction(s, k, allowGhost, size), at))
  {
    hide Sum, Listed, PieceOk, EvictPiece;
    EvictPieceIsFirm(s, k, allowGhost, size, at);
    NotEvicted(s, k, allowGhost, size);
  }

  lemma FlushEndIsFirm(s: State, f: Flush, error: bool, size: nat, at: Place)
    requires Inv(s) && f.key in s.pieces && size > 0
    ensures Firm(Cell(s, at), Cell(IovecFlushed(s, f.key, f.blocks, error, size), at))
  {
    hide Sum, Listed, PieceOk, Marked, MaybeFreePiece, Freeable, JobsLeft;
    var t := Marked(s, f.key, f.blocks);
    CellOk(s, at);
    MarkedKeepsInv(s, f.key, f.blocks);
    MarkedCells(s, f, at);
    MaybeFreeIsFirm(t, f.key, size, at);
  }

  lemma WriteIsFirm(w: World, e: Event, at: Place)
    requires Inv(w.cache) && Enabled(w, e) && e.WriteTo?
    ensures Firm(Cell(w.cache, at), Cell(Next(w, e).cache, at))
  {
    hide Inv, Cell, AllocatePiece, WriteBlock, CacheEvict.Evicted, CacheEvict.Spared, CacheFlush.CanWrite;
    var k := e.at.key;
    AllocateKeepsInv(w.cache, k, e.n, WRITE_LRU);
    AllocatedCell(w.cache, k, e.n, at);
    EvictedIsFirm(AllocatePiece(w.cache, k, e.n, WRITE_LRU), e.mid, at);
    TargetIsIdle(w.cache, e.at, e.n, e.mid);
    InvListed(e.mid, k);
    CellOk(e.mid, at);
    WriteCells(e.mid, e.at, e.data, e.job, e.addHasher, at);
  }

  lemma EndReadIsFirm(w: World, e: Event, at: Place)
    requires Inv(w.cache) && Enabled(w, e) && e.EndRead?
    ensures Firm(Cell(w.cache, at), Cell(Next(w, e).cache, at))
  {
    hide Inv, Cell, InsertBlocks;
    CellOk(w.cache, at);
    InsertCells(w.cache, w.readers[e.id], e.inc, e.hitBlock, at);
  }

  /** In every step that the source can make, timely or not, a block that is referenced for
      hashing or reading keeps its buffer. */
  lemma HeldBlockIsStable(w: World, e: Event, at: Place)
    requires Inv(w.cache) && Enabled(w, e) && InUse(Cell(w.cache, at))
    ensures Cell(w.cache, at).buf.Some?
    ensures Cell(Next(w, e).cache, at).buf == Cell(w.cache, at).buf
  {
    hide Inv, Cell, IovecFlushed, InsertBlocks, CacheEvict.Evicted;
    CellOk(w.cache, at);
    match e
    case WriteTo(_, _, _, _, _, _) => WriteIsFirm(w, e, at);
    case BeginFlush(id, key, start, end) => FlushCells(w.cache, key, start, end, at);
    case WriteOut(_) => {}
    case FailOut(_, _) => {}
    case EndFlush(id) => FlushEndIsFirm(w.cache, w.flushes[id], w.flushes[id].failed != {}, w.size, at);
    case MaybeFree(key) => MaybeFreeIsFirm(w.cache, key, w.size, at);
    case Mark(key, allowGhost) => MarkIsFirm(w.cache, key, allowGhost, w.size, at);
    case Evict(after) => EvictedIsFirm(w.cache, after, at);
    case Rearrange(after) => assert Same(Cell(w.cache, at), Cell(after, at));
    case BeginRead(_, _, _, _) => {}
    case Fetch(_) => {}
    case EndRead(_, _, _) => EndReadIsFirm(w, e, at);
  }

  // ----- reading from the cache -----

  /** A read that is answered from the cache changes no buffer, and then the piece may be
      freed: one step, or two. */
  lemma CopyIsSteps(s: State, k: Key, offset: nat, size: nat, forceCopy: bool, ghostSize: nat) returns (mid: State)
    requires CanCopy(s, k, offset, size) && ghostSize > 0
    ensures Rearranged(s, mid) && k in mid.pieces
    ensures var t := CopyFromPiece(s, k, offset, size, forceCopy, ghostSize);
      t == mid || t == MaybeFreePiece(mid, k, ghostSize)
  {
    hide Sum, Listed, MaybeFreePiece, HitIn, PutBlock;
    var i := offset / DEFAULT_BLOCK_SIZE;
    var b := s.pieces[k].blocks[i];
    mid := s;
    if b.buf.None? {
    } else if !TwoBlocks(offset, size) && !forceCopy {
      mid := PutBlock(s, k, i, Referenced(b.(hit := true), RefReading));
      assert PieceOk(s.pieces[k]) && BlockOk(b);
      PutBlockKeepsInv(s, k, i, Referenced(b.(hit := true), RefReading));
      BlockPut(s, k, i, Referenced(b.(hit := true), RefReading));
    } else if CanAnswer(s.pieces[k], offset, size) {
      mid := Hits(s, k, i, BlocksRead(offset, size));
      HitsKeepInv(s, k, i, BlocksRead(offset, size));
    }
  }

  lemma BlockPut(s: State, k: Key, i: nat, b: Block)
    requires HasBlock(s, k, i) && Same(s.pieces[k].blocks[i], b)
    ensures var t := PutBlock(s, k, i, b);
      k in t.pieces && SameJobs(s, t) && forall at :: Same(Cell(s, at), Cell(t, at))
  {
    hide Sum;
  }

  // ----- hashing -----

  /** What the cache knows of a hashing is what the cursor's model has. */
  ghost predicate Mirrors(h: HashCursor.Hashing, p: Piece) {
    && h.hash == p.hash && h.hashing == p.hashing && HashCursor.Blocks(h.size) == |p.blocks|
    && forall i :: 0 <= i < |p.blocks| ==> p.blocks[i].hashing == HashCursor.Refs(h, i)
  }

  function CachedBlocks(p: Piece): (r: set<nat>)
    ensures forall i :: i in r <==> 0 <= i < |p.blocks| && p.blocks[i].buf.Some?
  {
    set i | 0 <= i < |p.blocks| && p.blocks[i].buf.Some?
  }

  /** The run of cached blocks is the one there is. */
  lemma {:induction false} RunIs(cached: set<nat>, i: nat, n: nat, end: nat)
    requires i + n <= end && (forall j :: i <= j < i + n ==> j in cached) && (i + n < end ==> i + n !in cached)
    ensures HashCursor.CachedRun(cached, i, end) == n
    decreases n
  {
    if n > 0 {
      RunIs(cached, i + 1, n - 1, end);
    }
  }

  /** What CacheHash.KickBegin leaves is the step BeginKick of the cursor's model. */
  lemma BeginKickMirrors(h: HashCursor.Hashing, p: Piece, cursor: nat, n: nat)
    requires Mirrors(h, p) && HashCursor.Enabled(h, HashCursor.BeginKick(CachedBlocks(p)))
    requires cursor == p.hash.value / DEFAULT_BLOCK_SIZE && n > 0 && cursor + n <= |p.blocks|
    requires forall i :: cursor <= i < cursor + n ==> p.blocks[i].buf.Some?
    requires cursor + n < |p.blocks| ==> p.blocks[cursor + n].buf.None?
    ensures var g := HashCursor.Next(h, HashCursor.BeginKick(CachedBlocks(p)));
      && g.op == HashCursor.Kick(cursor, cursor + n, cursor, p.hash.value)
      && Mirrors(g, CacheHash.KickedPiece(p, cursor, n))
  {
    hide Sum, CacheRead.Held, HashCursor.CachedRun;
    RunIs(CachedBlocks(p), cursor, n, |p.blocks|);
    var g := HashCursor.Next(h, HashCursor.BeginKick(CachedBlocks(p)));
    var q := CacheHash.KickedPiece(p, cursor, n);
    assert g.refs == HashCursor.Take(h.refs, HashCursor.Range(cursor, cursor + n));
    forall i | 0 <= i < |q.blocks|
      ensures q.blocks[i].hashing == HashCursor.Refs(g, i)
    {
      HashCursor.TakeAddsOne(h.refs, HashCursor.Range(cursor, cursor + n), i);
    }
  }

  /** And what CacheHash.KickEnd leaves is the step EndKick. */
  lemma EndKickMirrors(h: HashCursor.Hashing, p: Piece)
    requires HashCursor.Good(h) && Mirrors(h, p) && BlocksOk(p.blocks)
    requires HashCursor.Enabled(h, HashCursor.EndKick(false))
    ensures var g := HashCursor.Next(h, HashCursor.EndKick(false));
      var q := Recount(p.(hash := Some(h.op.offset), hashing := false), CacheHash.LetGo(p.blocks, h.op.cursor, h.op.end - h.op.cursor));
      Mirrors(g, q)
  {
    hide Sum, CacheHash.LetGo;
    var g := HashCursor.Next(h, HashCursor.EndKick(false));
    var q := Recount(p.(hash := Some(h.op.offset), hashing := false), CacheHash.LetGo(p.blocks, h.op.cursor, h.op.end - h.op.cursor));
    forall i | 0 <= i < |q.blocks|
      ensures q.blocks[i].hashing == HashCursor.Refs(g, i)
    {
      assert BlockOk(p.blocks[i]) && p.blocks[i].hashing == HashCursor.Refs(h, i);
    }
  }

  /** A block that is being fed to the hasher from its buffer keeps it, whatever step is
      made meanwhile. */
  lemma FedBlockIsStable(h: HashCursor.Hashing, w: World, e: Event, k: Key)
    requires HashCursor.Good(h) && HashCursor.Enabled(h, HashCursor.Feed)
    requires h.op.Kick? || h.op.fed in h.op.locked
    requires Inv(w.cache) && k in w.cache.pieces && Mirrors(h, w.cache.pieces[k]) && Enabled(w, e)
    ensures var at := Place(k, h.op.fed);
      && Cell(w.cache, at).buf.Some?
      && Cell(Next(w, e).cache, at).buf == Cell(w.cache, at).buf
  {
    hide Inv, Enabled, Next;
    HashCursor.FedBlockIsHeld(h);
    FedBlockExists(h);
    HeldBlockIsStable(w, e, Place(k, h.op.fed));
  }

  lemma FedBlockExists(h: HashCursor.Hashing)
    requires HashCursor.Good(h) && HashCursor.Enabled(h, HashCursor.Feed)
    ensures h.op.fed < HashCursor.Blocks(h.size)
  {
  }
}
