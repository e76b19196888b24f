/** What flushing, writing and reading do to the blocks of a piece. */
module CacheFill {
  import opened Options
  import opened CacheModel
  import opened CacheOps

  // ----- blocks_flushed() -----

  /** A block whose write completed: it is clean, and the reference of the write is gone. */
  function FlushDone(b: Block): Block {
    if b.refcount > 0 && b.flushing > 0 then Released(b.(pending := false, dirty := false), RefFlushing) else b
  }

  function FlushIn(bs: seq<Block>, flushed: seq<nat>): (r: seq<Block>)
    ensures |r| == |bs|
    ensures forall i :: 0 <= i < |bs| ==> r[i] == if i in flushed then FlushDone(bs[i]) else bs[i]
  {
    if bs == [] then []
    else
      var n: nat := |bs| - 1;
      FlushIn(bs[..n], flushed) + [if n in flushed then FlushDone(bs[n]) else bs[n]]
  }

  /** The flushed blocks are blocks of the piece that are being written, each named once. */
  predicate FlushedOk(bs: seq<Block>, flushed: seq<nat>) {
    && (forall i :: 0 <= i < |flushed| ==> flushed[i] < |bs| && bs[flushed[i]].pending)
    && (forall i, j :: 0 <= i < j < |flushed| ==> flushed[i] != flushed[j])
  }

  lemma {:induction false} FlushShrinks(bs: seq<Block>, flushed: seq<nat>, m: Measure)
    requires BlocksOk(bs) && m != Clean && m != Pinned && m != Loose
    ensures Sum(FlushIn(bs, flushed), m) <= Sum(bs, m)
    ensures m == Cached ==> Sum(FlushIn(bs, flushed), m) == Sum(bs, m)
    decreases |bs|
  {
    if bs != [] {
      var n: nat := |bs| - 1;
      assert BlockOk(bs[n]);
      FlushShrinks(bs[..n], flushed, m);
      assert FlushIn(bs, flushed)[..n] == FlushIn(bs[..n], flushed);
    }
  }

  lemma FlushKeepsPieceOk(p: Piece, flushed: seq<nat>)
    requires PieceOk(p)
    ensures PieceOk(Recount(p, FlushIn(p.blocks, flushed)))
  {
    var bs := FlushIn(p.blocks, flushed);
    forall i | 0 <= i < |bs|
      ensures BlockOk(bs[i])
    {
      assert BlockOk(p.blocks[i]);
    }
    FlushShrinks(p.blocks, flushed, Dirty);
    FlushShrinks(p.blocks, flushed, Cached);
    FlushShrinks(p.blocks, flushed, Refs);
  }

  /** The cache after the written blocks were marked, before the piece may be freed. */
  function Marked(s: State, k: Key, flushed: seq<nat>): State
    requires Inv(s) && k in s.pieces
  {
    var p := s.pieces[k];
    FlushKeepsPieceOk(p, flushed);
    PutKeepsInv(s, k, Recount(p, FlushIn(p.blocks, flushed)));
    UpdateCacheState(Put(s, k, Recount(p, FlushIn(p.blocks, flushed))), k)
  }

  lemma MarkedKeepsInv(s: State, k: Key, flushed: seq<nat>)
    requires Inv(s) && k in s.pieces
    ensures var t := Marked(s, k, flushed);
      && Inv(t) && t.pieces.Keys == s.pieces.Keys
      && t.pieces[k].blocks == FlushIn(s.pieces[k].blocks, flushed)
      && t.pieces[k].jobs == s.pieces[k].jobs
  {
    hide Sum, FlushIn, Listed, PieceOk;
    var p := s.pieces[k];
    FlushKeepsPieceOk(p, flushed);
    var t := Put(s, k, Recount(p, FlushIn(p.blocks, flushed)));
    PutKeepsInv(s, k, Recount(p, FlushIn(p.blocks, flushed)));
    UpdateKeepsInv(t, k);
  }

  function BlocksFlushed(s: State, k: Key, flushed: seq<nat>, size: nat): State
    requires Inv(s) && k in s.pieces && size > 0
  {
    MarkedKeepsInv(s, k, flushed);
    MaybeFreePiece(Marked(s, k, flushed), k, size)
  }

  lemma FlushedKeepsInv(s: State, k: Key, flushed: seq<nat>, size: nat)
    requires Inv(s) && k in s.pieces && size > 0
    ensures Inv(BlocksFlushed(s, k, flushed, size))
  {
    hide Marked;
    MarkedKeepsInv(s, k, flushed);
    MaybeFreeKeepsInv(Marked(s, k, flushed), k, size);
  }

  // ----- iovec_flushed() -----

  /** disk_io_job::completed(): the block of the write is neither dirty nor being written. */
  predicate Completed(bs: seq<Block>, j: Job) {
    j.block < |bs| && !bs[j.block].dirty && !bs[j.block].pending
  }

  /** The jobs that go on waiting, in their order, and those that do not. */
  function Unfinished(bs: seq<Block>, jobs: seq<Job>): (r: seq<Job>)
    ensures forall j :: j in r <==> j in jobs && !Completed(bs, j)
  {
    if jobs == [] then []
    else
      var n: nat := |jobs| - 1;
      Unfinished(bs, jobs[..n]) + if Completed(bs, jobs[n]) then [] else [jobs[n]]
  }

  function Finished(bs: seq<Block>, jobs: seq<Job>): (r: seq<Job>)
    ensures forall j :: j in r <==> j in jobs && Completed(bs, j)
  {
    if jobs == [] then []
    else
      var n: nat := |jobs| - 1;
      Finished(bs, jobs[..n]) + if Completed(bs, jobs[n]) then [jobs[n]] else []
  }

  /** No job is lost and none is answered twice. */
  lemma {:induction false} JobsArePartitioned(bs: seq<Block>, jobs: seq<Job>)
    ensures multiset(Unfinished(bs, jobs)) + multiset(Finished(bs, jobs)) == multiset(jobs)
  {
    if jobs != [] {
      hide Completed;
      var n: nat := |jobs| - 1;
      JobsArePartitioned(bs, jobs[..n]);
      assert jobs == jobs[..n] + [jobs[n]];
      OneMore(Unfinished(bs, jobs[..n]), Finished(bs, jobs[..n]), jobs[..n], jobs[n]);
    }
  }

  lemma OneMore(a: seq<Job>, b: seq<Job>, all: seq<Job>, j: Job)
    requires multiset(a) + multiset(b) == multiset(all)
    ensures multiset(a + [j]) + multiset(b + []) == multiset(all + [j])
    ensures multiset(a + []) + multiset(b + [j]) == multiset(all + [j])
  {
    assert a + [] == a && b + [] == b;
  }

  /** After an error every job of the piece is answered, whatever block it waits for. */
  function JobsLeft(p: Piece, error: bool): seq<Job> {
    if error then [] else Unfinished(p.blocks, p.jobs)
  }

  function FinishJobs(s: State, k: Key, error: bool): State
    requires k in s.pieces
  {
    Put(s, k, s.pieces[k].(jobs := JobsLeft(s.pieces[k], error)))
  }

  lemma FinishKeepsInv(s: State, k: Key, error: bool)
    requires Inv(s) && k in s.pieces
    ensures Inv(FinishJobs(s, k, error))
  {
    hide Sum, Listed, JobsLeft;
    var p := s.pieces[k];
    assert PieceOk(p);
    PutKeepsInv(s, k, p.(jobs := JobsLeft(p, error)));
  }

  /** The blocks are marked, whether they were written or not; if the piece is still there,
      its jobs are looked through. */
  function IovecFlushed(s: State, k: Key, flushed: seq<nat>, error: bool, size: nat): State
    requires Inv(s) && k in s.pieces && size > 0
  {
    MarkedKeepsInv(s, k, flushed);
    var t := Marked(s, k, flushed);
    if Freeable(t.pieces[k]) then MaybeFreePiece(t, k, size) else FinishJobs(t, k, error)
  }

  lemma IovecFlushedKeepsInv(s: State, k: Key, flushed: seq<nat>, error: bool, size: nat)
    requires Inv(s) && k in s.pieces && size > 0
    ensures Inv(IovecFlushed(s, k, flushed, error, size))
  {
    hide Marked, Sum, Listed, PieceOk, FinishJobs, Freeable, MaybeFreePiece;
    MarkedKeepsInv(s, k, flushed);
    var t := Marked(s, k, flushed);
    MaybeFreeKeepsInv(t, k, size);
    FinishKeepsInv(t, k, error);
  }

  // ----- build_iovec() -----

  /** A block that is about to be written. */
  function Flushing(b: Block): Block {
    Referenced(b, RefFlushing).(pending := true)
  }

  predicate ToFlush(b: Block) {
    b.buf.Some? && !b.pending && b.dirty
  }

  function FlushRange(bs: seq<Block>, start: nat, end: nat): (r: seq<Block>)
    ensures |r| == |bs|
    ensures forall i :: 0 <= i < |bs| ==> r[i] == if start <= i < end && ToFlush(bs[i]) then Flushing(bs[i]) else bs[i]
  {
    if bs == [] then []
    else
      var n: nat := |bs| - 1;
      FlushRange(bs[..n], start, end) + [if start <= n < end && ToFlush(bs[n]) then Flushing(bs[n]) else bs[n]]
  }

  lemma {:induction false} FlushRangeSums(bs: seq<Block>, start: nat, end: nat, m: Measure)
    requires m != Refs && m != Pinned && m != Busy
    ensures Sum(FlushRange(bs, start, end), m) == Sum(bs, m)
    decreases |bs|
  {
    if bs != [] {
      var n: nat := |bs| - 1;
      FlushRangeSums(bs[..n], start, end, m);
      assert FlushRange(bs, start, end)[..n] == FlushRange(bs[..n], start, end);
    }
  }

  /** Nothing to flush leaves the blocks as they are. */
  lemma NothingToFlush(bs: seq<Block>, start: nat, end: nat)
    requires forall i :: start <= i < end && i < |bs| ==> !ToFlush(bs[i])
    ensures FlushRange(bs, start, end) == bs
  {
  }

  function StartFlush(s: State, k: Key, start: nat, end: nat): State
    requires k in s.pieces
  {
    Put(s, k, Recount(s.pieces[k], FlushRange(s.pieces[k].blocks, start, end)))
  }

  lemma StartFlushKeepsInv(s: State, k: Key, start: nat, end: nat)
    requires Inv(s) && k in s.pieces
    ensures Inv(StartFlush(s, k, start, end))
  {
    var p := s.pieces[k];
    var bs := FlushRange(p.blocks, start, end);
    forall i | 0 <= i < |bs|
      ensures BlockOk(bs[i])
    {
      assert BlockOk(p.blocks[i]);
    }
    FlushRangeSums(p.blocks, start, end, Dirty);
    FlushRangeSums(p.blocks, start, end, Cached);
    if IsGhost(p.cacheState) {
      SumIsZero(p.blocks, Cached);
      forall i | start <= i < end && i < |p.blocks|
        ensures !ToFlush(p.blocks[i])
      {
        assert Weigh(p.blocks[i], Cached) == 0;
      }
      NothingToFlush(p.blocks, start, end);
    }
    PutKeepsInv(s, k, Recount(p, bs));
  }

  // ----- add_dirty_block() -----

  function Dirtied(b: Block, data: Bytes): Block {
    b.(buf := Some(data), dirty := true)
  }

  /** The record of a piece one of whose blocks was written. */
  function DirtyPiece(p: Piece, i: nat, data: Bytes, job: nat, addHasher: bool): Piece
    requires i < |p.blocks|
  {
    Recount(p, p.blocks[i := Dirtied(p.blocks[i], data)])
      .(jobs := p.jobs + [Job(job, i)],
        hash := if i == 0 && p.hash.None? && !p.hashingDone && addHasher then Some(0) else p.hash)
  }

  /** The piece moves to the back of the write list. */
  function WriteBlock(s: State, k: Key, i: nat, data: Bytes, job: nat, addHasher: bool): State
    requires HasBlock(s, k, i) && s.pieces[k].cacheState < |s.lru| == NUM_LRUS
  {
    Move(s, k, DirtyPiece(s.pieces[k], i, data, job, addHasher), WRITE_LRU)
  }

  lemma WriteBlockKeepsInv(s: State, k: Key, i: nat, data: Bytes, job: nat, addHasher: bool)
    requires Inv(s) && HasBlock(s, k, i)
    ensures Inv(WriteBlock(s, k, i, data, job, addHasher))
  {
    var p := s.pieces[k];
    assert BlockOk(p.blocks[i]);
    MoveKeepsInv(s, k, DirtyPiece(p, i, data, job, addHasher), WRITE_LRU);
  }

  // ----- insert_blocks() -----

  /** A block that was read: it never replaces one that is there. */
  function Inserted(b: Block, data: Bytes, inc: bool): Block {
    var c := if b.buf.Some? then b else b.(buf := Some(data));
    if inc then Referenced(c, RefReading) else c
  }

  function InsertIn(bs: seq<Block>, first: nat, iov: seq<Bytes>, inc: bool): (r: seq<Block>)
    ensures |r| == |bs|
    ensures forall i :: 0 <= i < |bs| ==>
      r[i] == if first <= i < first + |iov| then Inserted(bs[i], iov[i - first], inc) else bs[i]
  {
    if bs == [] then []
    else
      var n: nat := |bs| - 1;
      InsertIn(bs[..n], first, iov, inc)
      + [if first <= n < first + |iov| then Inserted(bs[n], iov[n - first], inc) else bs[n]]
  }

  lemma {:induction false} InsertKeepsDirty(bs: seq<Block>, first: nat, iov: seq<Bytes>, inc: bool)
    requires BlocksOk(bs)
    ensures Sum(InsertIn(bs, first, iov, inc), Dirty) == Sum(bs, Dirty)
    decreases |bs|
  {
    if bs != [] {
      var n: nat := |bs| - 1;
      assert BlockOk(bs[n]);
      InsertKeepsDirty(bs[..n], first, iov, inc);
      assert InsertIn(bs, first, iov, inc)[..n] == InsertIn(bs[..n], first, iov, inc);
    }
  }

  function InsertBlocks(s: State, k: Key, first: nat, iov: seq<Bytes>, inc: bool, hitBlock: nat): State
    requires Inv(s) && HasBlock(s, k, hitBlock)
  {
    CacheHitKeepsInv(s, k, hitBlock);
    var t := CacheHit(s, k, hitBlock);
    Put(t, k, Recount(t.pieces[k], InsertIn(t.pieces[k].blocks, first, iov, inc)))
  }

  lemma InsertKeepsInv(s: State, k: Key, first: nat, iov: seq<Bytes>, inc: bool, hitBlock: nat)
    requires Inv(s) && HasBlock(s, k, hitBlock)
    ensures Inv(InsertBlocks(s, k, first, iov, inc, hitBlock))
  {
    CacheHitKeepsInv(s, k, hitBlock);
    var t := CacheHit(s, k, hitBlock);
    var p := t.pieces[k];
    var bs := InsertIn(p.blocks, first, iov, inc);
    forall i | 0 <= i < |bs|
      ensures BlockOk(bs[i])
    {
      assert BlockOk(p.blocks[i]);
    }
    InsertKeepsDirty(p.blocks, first, iov, inc);
    PutKeepsInv(t, k, Recount(p, bs));
  }

  // ----- copy_from_piece() -----

  /** Whether a read of size bytes at offset needs the next block as well. */
  predicate TwoBlocks(offset: nat, size: nat) {
    var inBlock := offset % DEFAULT_BLOCK_SIZE;
    inBlock > 0 && size > DEFAULT_BLOCK_SIZE - inBlock
  }

  /** The buffers hold as many bytes as the piece has in that block. */
  ghost predicate Sized(p: Piece, pieceSize: nat) {
    forall i :: 0 <= i < |p.blocks| && p.blocks[i].buf.Some? ==>
      |p.blocks[i].buf.value| == BlockLength(pieceSize, i)
  }

  function BlockLength(pieceSize: nat, i: nat): nat {
    if pieceSize <= i * DEFAULT_BLOCK_SIZE then 0
    else if pieceSize - i * DEFAULT_BLOCK_SIZE < DEFAULT_BLOCK_SIZE then pieceSize - i * DEFAULT_BLOCK_SIZE
    else DEFAULT_BLOCK_SIZE
  }

  /** Byte x of a piece, of which block x / 0x4000 is in the cache. */
  predicate HasByte(p: Piece, x: nat) {
    var i := x / DEFAULT_BLOCK_SIZE;
    i < |p.blocks| && p.blocks[i].buf.Some? && x % DEFAULT_BLOCK_SIZE < |p.blocks[i].buf.value|
  }

  function ByteAt(p: Piece, x: nat): char
    requires HasByte(p, x)
  {
    p.blocks[x / DEFAULT_BLOCK_SIZE].buf.value[x % DEFAULT_BLOCK_SIZE]
  }

  /** A reader is answered with a reference to a buffer, with a copy, or not at all. */
  datatype Answer = Miss | Borrowed(bytes: Bytes) | Copied(bytes: Bytes)

  predicate CanAnswer(p: Piece, offset: nat, size: nat)
    requires offset / DEFAULT_BLOCK_SIZE < |p.blocks|
    requires TwoBlocks(offset, size) ==> offset / DEFAULT_BLOCK_SIZE + 1 < |p.blocks|
  {
    var i := offset / DEFAULT_BLOCK_SIZE;
    p.blocks[i].buf.Some? && (TwoBlocks(offset, size) ==> p.blocks[i + 1].buf.Some?)
  }

  /** The n blocks from i on are marked as hit. */
  function HitIn(bs: seq<Block>, i: nat, n: nat): (r: seq<Block>)
    ensures |r| == |bs|
    ensures forall j :: 0 <= j < |bs| ==> r[j] == if i <= j < i + n then bs[j].(hit := true) else bs[j]
  {
    if bs == [] then []
    else
      var last: nat := |bs| - 1;
      HitIn(bs[..last], i, n) + [if i <= last < i + n then bs[last].(hit := true) else bs[last]]
  }

  lemma {:induction false} HitKeepsSum(bs: seq<Block>, i: nat, n: nat, m: Measure)
    ensures Sum(HitIn(bs, i, n), m) == Sum(bs, m)
    decreases |bs|
  {
    if bs != [] {
      HitKeepsSum(bs[..|bs| - 1], i, n, m);
      assert HitIn(bs, i, n)[..|bs| - 1] == HitIn(bs[..|bs| - 1], i, n);
    }
  }

  function Hits(s: State, k: Key, i: nat, n: nat): State
    requires k in s.pieces
  {
    Put(s, k, s.pieces[k].(blocks := HitIn(s.pieces[k].blocks, i, n)))
  }

  lemma HitsKeepInv(s: State, k: Key, i: nat, n: nat)
    requires Inv(s) && k in s.pieces
    ensures Inv(Hits(s, k, i, n))
    ensures Hits(s, k, i, n).pieces[k] == Recount(s.pieces[k], HitIn(s.pieces[k].blocks, i, n))
  {
    var p := s.pieces[k];
    var bs := HitIn(p.blocks, i, n);
    forall j | 0 <= j < |bs|
      ensures BlockOk(bs[j])
    {
      assert BlockOk(p.blocks[j]);
    }
    HitKeepsSum(p.blocks, i, n, Dirty);
    HitKeepsSum(p.blocks, i, n, Cached);
    HitKeepsSum(p.blocks, i, n, Refs);
    HitKeepsSum(p.blocks, i, n, Pinned);
    PutKeepsInv(s, k, p.(blocks := bs));
  }

  /** The blocks a copy of size bytes reads. */
  function BlocksRead(offset: nat, size: nat): nat {
    if size == 0 then 0 else if TwoBlocks(offset, size) then 2 else 1
  }

  ghost predicate CanCopy(s: State, k: Key, offset: nat, size: nat) {
    && Inv(s) && HasBlock(s, k, offset / DEFAULT_BLOCK_SIZE)
    && (TwoBlocks(offset, size) ==> HasBlock(s, k, offset / DEFAULT_BLOCK_SIZE + 1))
  }

  function CopyFromPiece(s: State, k: Key, offset: nat, size: nat, forceCopy: bool, ghostSize: nat): State
    requires CanCopy(s, k, offset, size) && ghostSize > 0
  {
    var i := offset / DEFAULT_BLOCK_SIZE;
    var b := s.pieces[k].blocks[i];
    if b.buf.None? then s
    else if !TwoBlocks(offset, size) && !forceCopy then PutBlock(s, k, i, Referenced(b.(hit := true), RefReading))
    else if !CanAnswer(s.pieces[k], offset, size) then MaybeFreePiece(s, k, ghostSize)
    else
      HitsKeepInv(s, k, i, BlocksRead(offset, size));
      MaybeFreePiece(Hits(s, k, i, BlocksRead(offset, size)), k, ghostSize)
  }

  lemma CopyKeepsInv(s: State, k: Key, offset: nat, size: nat, forceCopy: bool, ghostSize: nat)
    requires CanCopy(s, k, offset, size) && ghostSize > 0
    ensures Inv(CopyFromPiece(s, k, offset, size, forceCopy, ghostSize))
  {
    var i := offset / DEFAULT_BLOCK_SIZE;
    var b := s.pieces[k].blocks[i];
    assert BlockOk(b);
    if b.buf.None? {
    } else if !TwoBlocks(offset, size) && !forceCopy {
      PutBlockKeepsInv(s, k, i, Referenced(b.(hit := true), RefReading));
    } else if !CanAnswer(s.pieces[k], offset, size) {
      MaybeFreeKeepsInv(s, k, ghostSize);
    } else {
      HitsKeepInv(s, k, i, BlocksRead(offset, size));
      MaybeFreeKeepsInv(Hits(s, k, i, BlocksRead(offset, size)), k, ghostSize);
    }
  }
}
