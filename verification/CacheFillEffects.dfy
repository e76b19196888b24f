/** Flushing, writing and reading in a caller's terms: what each block of the piece is
    afterwards, where the piece is, and when it is freed. */
module CacheFillEffects {
  import opened Options
  import opened CacheModel
  import opened CacheOps
  import opened CacheFill
  import opened CacheEffects

  // ----- flushing -----

  /** The first half of a flush: every dirty block of the range that is not being written
      already is being written, and is referenced once more for that. */
  lemma FlushStarts(s: State, k: Key, start: nat, end: nat)
    requires Inv(s) && k in s.pieces
    ensures var t := StartFlush(s, k, start, end); var p, q := s.pieces[k], t.pieces[k];
      && OnlyRecord(s, t, k) && SameBut(p, q)
      && forall i :: 0 <= i < |p.blocks| ==> var b := p.blocks[i];
           q.blocks[i] == if start <= i < end && b.dirty && !b.pending
                          then b.(pending := true, refcount := b.refcount + 1, flushing := b.flushing + 1) else b
  {
    hide Sum, Listed;
    var p := s.pieces[k];
    forall i | 0 <= i < |p.blocks|
      ensures BlockOk(p.blocks[i])
    {
    }
  }

  /** The blocks of a flush are clean and no longer being written, without the reference of
      the write; their buffers and all other blocks are as before. */
  predicate Cleaned(p: Piece, q: Piece, flushed: seq<nat>) {
    && SameBut(p, q)
    && forall i :: 0 <= i < |p.blocks| ==>
         if i in flushed then CleanedBlock(p.blocks[i], q.blocks[i]) else q.blocks[i] == p.blocks[i]
  }

  predicate CleanedBlock(b: Block, c: Block) {
    b.refcount > 0 && c == b.(dirty := false, pending := false, refcount := b.refcount - 1, flushing := 0)
  }

  lemma FlushCleans(p: Piece, flushed: seq<nat>)
    requires PieceOk(p) && FlushedOk(p.blocks, flushed)
    ensures Cleaned(p, Recount(p, FlushIn(p.blocks, flushed)), flushed)
  {
    hide Sum;
    forall i | 0 <= i < |p.blocks| && i in flushed
      ensures CleanedBlock(p.blocks[i], FlushIn(p.blocks, flushed)[i])
    {
      assert BlockOk(p.blocks[i]);
    }
  }

  lemma CleanedElsewhere(p: Piece, q: Piece, flushed: seq<nat>, cacheState: nat)
    requires Cleaned(p, q, flushed)
    ensures Cleaned(p.(cacheState := cacheState), q.(cacheState := cacheState), flushed)
  {
  }

  /** The second half, up to the point where the piece may be freed: a piece without dirty
      blocks and without a hash leaves the write list for the first read list. */
  lemma FlushMarks(s: State, k: Key, flushed: seq<nat>)
    requires Inv(s) && k in s.pieces && FlushedOk(s.pieces[k].blocks, flushed)
    ensures var t, p := Marked(s, k, flushed), s.pieces[k];
      && |s.lru| == NUM_LRUS && p.cacheState < NUM_LRUS
      && k in t.pieces && OthersKept(s, t, k) && t.lastOp == s.lastOp
      && Cleaned(p.(cacheState := t.pieces[k].cacheState), t.pieces[k], flushed)
      && (p.cacheState == WRITE_LRU && p.hash.None? && t.pieces[k].numDirty == 0 ==> WentTo(s, t, k, READ_LRU1))
      && (p.cacheState == WRITE_LRU && (p.hash.Some? || t.pieces[k].numDirty > 0) ==> t.lru == s.lru)
  {
    hide Sum, FlushIn, Move, Listed, PieceOk, UpdateCacheState, WentTo, OthersKept, Cleaned, FlushedOk;
    var p := s.pieces[k];
    var left := Recount(p, FlushIn(p.blocks, flushed));
    var t := Put(s, k, left);
    ListsHaveRoom(s);
    ListedAt(s, k);
    PutIsListed(s, k, left);
    FlushCleans(p, flushed);
    UpdateGoesTo(t, k);
    RecordPut(s, k, left);
    GoesToo(s, t, UpdateCacheState(t, k), k);
    CleanedElsewhere(p, left, flushed, UpdateCacheState(t, k).pieces[k].cacheState);
  }

  /** blocks_flushed() frees the piece behind that if it can. */
  lemma FlushFrees(s: State, k: Key, flushed: seq<nat>, size: nat)
    requires Inv(s) && k in s.pieces && size > 0
    ensures var t := Marked(s, k, flushed);
      Inv(t) && k in t.pieces && FreedIfDone(t, BlocksFlushed(s, k, flushed, size), k, size)
  {
    hide Marked, FreedIfDone, MaybeFreePiece, Inv;
    MarkedKeepsInv(s, k, flushed);
    MaybeFreeGoesTo(Marked(s, k, flushed), k, size);
  }

  // ----- writing -----

  /** A write: the block holds the data and is dirty, the job waits behind the others, and
      the piece is last in the write list. Writing the first block starts the hash, if one
      is wanted and there was none. */
  lemma WriteGoesTo(s: State, k: Key, i: nat, data: Bytes, job: nat, addHasher: bool)
    requires Inv(s) && HasBlock(s, k, i)
    ensures var t, p := WriteBlock(s, k, i, data, job, addHasher), s.pieces[k];
      var startsHash := i == 0 && addHasher && p.hash.None? && !p.hashingDone;
      && |s.lru| == NUM_LRUS && p.cacheState < NUM_LRUS && WentTo(s, t, k, WRITE_LRU) && t.lastOp == s.lastOp
      && t.pieces[k].blocks == p.blocks[i := p.blocks[i].(buf := Some(data), dirty := true)]
      && SameBut(p.(cacheState := WRITE_LRU, jobs := p.jobs + [Job(job, i)],
                    hash := if startsHash then Some(0) else p.hash),
                 t.pieces[k])
  {
    hide Sum, Move, WentTo, PieceOk;
    ListsHaveRoom(s);
    MoveGoes(s, k, DirtyPiece(s.pieces[k], i, data, job, addHasher), WRITE_LRU);
  }

  // ----- reading -----

  /** What was read fills the gaps and replaces no buffer. If references were asked for,
      every block of the range has one more, whether it was there or not. */
  predicate FilledIn(p: Piece, q: Piece, first: nat, iov: seq<Bytes>, inc: bool) {
    && SameBut(p, q)
    && forall i :: 0 <= i < |p.blocks| ==>
         if first <= i < first + |iov| then FilledBlock(p.blocks[i], q.blocks[i], iov[i - first], inc)
         else q.blocks[i] == p.blocks[i]
  }

  predicate FilledBlock(b: Block, c: Block, data: Bytes, inc: bool) {
    && c.buf == (if b.buf.Some? then b.buf else Some(data))
    && c == b.(buf := c.buf, reading := if inc then b.reading + 1 else b.reading,
               refcount := if inc then b.refcount + 1 else b.refcount)
  }

  /** A read that was inserted is a hit of one of its blocks, behind which only the record
      of the piece changes. */
  lemma InsertFills(s: State, k: Key, first: nat, iov: seq<Bytes>, inc: bool, hitBlock: nat)
    requires Inv(s) && HasBlock(s, k, hitBlock)
    ensures var t, u := CacheHit(s, k, hitBlock), InsertBlocks(s, k, first, iov, inc, hitBlock);
      OnlyRecord(t, u, k) && FilledIn(t.pieces[k], u.pieces[k], first, iov, inc)
  {
    hide Sum, CacheHit, Inv, Listed, InsertIn, FilledIn, OnlyRecord, Recount;
    CacheHitKeepsInv(s, k, hitBlock);
    InvIsListed(s);
    ListedAt(s, k);
    var p := CacheHit(s, k, hitBlock).pieces[k];
    var q := Recounted(p, InsertIn(p.blocks, first, iov, inc));
    RecordPut(CacheHit(s, k, hitBlock), k, q);
    InsertInFills(CacheHit(s, k, hitBlock).pieces[k], first, iov, inc);
  }

  lemma Recounted(p: Piece, bs: seq<Block>) returns (q: Piece)
    ensures q == Recount(p, bs) && q.cacheState == p.cacheState
  {
    q := Recount(p, bs);
  }

  lemma InsertInFills(p: Piece, first: nat, iov: seq<Bytes>, inc: bool)
    ensures FilledIn(p, Recount(p, InsertIn(p.blocks, first, iov, inc)), first, iov, inc)
  {
    hide Sum;
    var bs := InsertIn(p.blocks, first, iov, inc);
    forall i | 0 <= i < |p.blocks| && first <= i < first + |iov|
      ensures FilledBlock(p.blocks[i], bs[i], iov[i - first], inc)
    {
    }
  }

  /** Block i holds some of the n bytes from offset on. */
  predicate Touched(i: nat, offset: nat, n: nat) {
    n > 0 && i * DEFAULT_BLOCK_SIZE < offset + n && offset < (i + 1) * DEFAULT_BLOCK_SIZE
  }

  lemma ReadTouches(offset: nat, size: nat, i: nat)
    requires size <= DEFAULT_BLOCK_SIZE
    ensures var first := offset / DEFAULT_BLOCK_SIZE;
      Touched(i, offset, size) <==> first <= i < first + BlocksRead(offset, size)
  {
    var first, o := offset / DEFAULT_BLOCK_SIZE, offset % DEFAULT_BLOCK_SIZE;
    assert offset == first * DEFAULT_BLOCK_SIZE + o;
  }

  /** The blocks that were read are marked as hit; nothing else of the piece changed. */
  predicate HitMarked(p: Piece, q: Piece, offset: nat, size: nat) {
    && SameBut(p, q)
    && forall i :: 0 <= i < |p.blocks| ==>
         q.blocks[i] == if Touched(i, offset, size) then p.blocks[i].(hit := true) else p.blocks[i]
  }

  lemma HitsMark(s: State, k: Key, offset: nat, size: nat)
    requires Inv(s) && k in s.pieces && size <= DEFAULT_BLOCK_SIZE
    ensures var t := Hits(s, k, offset / DEFAULT_BLOCK_SIZE, BlocksRead(offset, size));
      Inv(t) && OnlyRecord(s, t, k) && HitMarked(s.pieces[k], t.pieces[k], offset, size)
  {
    hide Sum, Inv, BlocksRead, Touched;
    var i, n := offset / DEFAULT_BLOCK_SIZE, BlocksRead(offset, size);
    HitsKeepInv(s, k, i, n);
    forall j: nat
      ensures Touched(j, offset, size) <==> i <= j < i + n
    {
      ReadTouches(offset, size, j);
    }
  }

  /** The read needs the end of one block and the start of the next. */
  predicate Straddles(offset: nat, size: nat) {
    offset % DEFAULT_BLOCK_SIZE > 0 && offset % DEFAULT_BLOCK_SIZE + size > DEFAULT_BLOCK_SIZE
  }

  /** A read whose first block is missing changes nothing; one of which only the first is
      there, whose reference is given back, may free the piece. */
  lemma CopyMisses(s: State, k: Key, offset: nat, size: nat, forceCopy: bool, ghostSize: nat)
    requires CanCopy(s, k, offset, size) && ghostSize > 0
    ensures var t := CopyFromPiece(s, k, offset, size, forceCopy, ghostSize);
      var p, i := s.pieces[k], offset / DEFAULT_BLOCK_SIZE;
      && (p.blocks[i].buf.None? ==> t == s)
      && (p.blocks[i].buf.Some? && Straddles(offset, size) && p.blocks[i + 1].buf.None? ==> FreedIfDone(s, t, k, ghostSize))
  {
    hide Sum, Inv, MaybeFreePiece, FreedIfDone, Hits;
    MaybeFreeGoesTo(s, k, ghostSize);
  }

  /** A read of one block that need not be copied keeps a reference to it. */
  lemma CopyBorrows(s: State, k: Key, offset: nat, size: nat, ghostSize: nat)
    requires CanCopy(s, k, offset, size) && ghostSize > 0 && !Straddles(offset, size)
    requires s.pieces[k].blocks[offset / DEFAULT_BLOCK_SIZE].buf.Some?
    ensures var t := CopyFromPiece(s, k, offset, size, false, ghostSize);
      var p, i := s.pieces[k], offset / DEFAULT_BLOCK_SIZE; var b := p.blocks[i];
      && OnlyRecord(s, t, k) && SameBut(p, t.pieces[k])
      && t.pieces[k].blocks == p.blocks[i := b.(hit := true, reading := b.reading + 1, refcount := b.refcount + 1)]
  {
    hide Sum, Inv, MaybeFreePiece, Hits;
  }

  /** Any other read whose blocks are there leaves them marked as hit, with no reference
      left; and behind that the piece may be freed. */
  lemma CopyMarks(s: State, k: Key, offset: nat, size: nat, forceCopy: bool, ghostSize: nat) returns (t: State)
    requires CanCopy(s, k, offset, size) && ghostSize > 0 && size <= DEFAULT_BLOCK_SIZE
    requires Straddles(offset, size) || forceCopy
    requires s.pieces[k].blocks[offset / DEFAULT_BLOCK_SIZE].buf.Some?
    requires Straddles(offset, size) ==> s.pieces[k].blocks[offset / DEFAULT_BLOCK_SIZE + 1].buf.Some?
    ensures Inv(t) && OnlyRecord(s, t, k) && HitMarked(s.pieces[k], t.pieces[k], offset, size)
    ensures FreedIfDone(t, CopyFromPiece(s, k, offset, size, forceCopy, ghostSize), k, ghostSize)
  {
    hide Sum, Inv, MaybeFreePiece, FreedIfDone, HitMarked, BlocksRead, Hits;
    HitsMark(s, k, offset, size);
    t := Hits(s, k, offset / DEFAULT_BLOCK_SIZE, BlocksRead(offset, size));
    MaybeFreeGoesTo(t, k, ghostSize);
  }
}
