/** Writing through the cache: add_dirty_block() as a whole, and the flush of a range of a
    piece, which builds the list of buffers to write under the lock and writes them, in
    runs of consecutive blocks, without it. */
module CacheFlush {
  import opened Options
  import opened CacheModel
  import opened CacheOps
  import opened CacheFill
  import opened Picking
  import CacheEvict
  import BlockCache

  // ----- add_dirty_block() -----

  /** What the caller of add_dirty_block() has to see to: n is the number of blocks of the
      piece, the block is in it, nobody refers to the block, and the piece was not hashed. */
  ghost predicate CanWrite(s: State, k: Key, n: nat, i: nat) {
    && i < n
    && (k in s.pieces ==> |s.pieces[k].blocks| == n && s.pieces[k].blocks[i].refcount == 0 && !s.pieces[k].hashingDone)
  }

  lemma AllocatedPiece(s: State, k: Key, n: nat)
    requires Inv(s)
    ensures var t := AllocatePiece(s, k, n, WRITE_LRU);
      && k in t.pieces && t.pieces[k].cacheState == WRITE_LRU
      && (k in s.pieces ==> t.pieces[k].blocks == s.pieces[k].blocks && t.pieces[k].hash == s.pieces[k].hash)
      && (k !in s.pieces ==> t.pieces[k].blocks == EmptyBlocks(n) && t.pieces[k].hash == None)
      && forall x :: x != k && x in t.pieces ==> x in s.pieces && t.pieces[x] == s.pieces[x]
  {
  }

  lemma AllocatedCursors(s: State, k: Key, n: nat)
    requires Inv(s) && CacheEvict.CursorsOk(s)
    ensures CacheEvict.CursorsOk(AllocatePiece(s, k, n, WRITE_LRU))
  {
    hide AllocatePiece;
    AllocatedPiece(s, k, n);
    var t := AllocatePiece(s, k, n, WRITE_LRU);
    forall x | x in t.pieces
      ensures CacheEvict.CursorOk(t.pieces[x])
    {
      if x in s.pieces {
        assert CacheEvict.CursorOk(s.pieces[x]);
      }
    }
  }

  /** evict is the number of blocks the buffer pool wants freed. Nothing but clean blocks
      is evicted, and not from this piece; then the block holds the data and is dirty. */
  method AddDirtyBlock(c: BlockCache.Cache, k: Key, n: nat, i: nat, data: Bytes, job: nat, addHasher: bool, evict: int)
      returns (left: int, ghost mid: State)
    requires c.Valid() && CacheEvict.CursorsOk(c.View()) && CanWrite(c.View(), k, n, i)
    modifies c
    ensures c.Valid()
    ensures CacheEvict.Evicted(AllocatePiece(old(c.View()), k, n, WRITE_LRU), mid)
    ensures CacheEvict.Spared(AllocatePiece(old(c.View()), k, n, WRITE_LRU), mid, k)
    ensures HasBlock(mid, k, i) && |mid.lru| == NUM_LRUS && mid.pieces[k].cacheState == WRITE_LRU
    ensures c.View() == WriteBlock(mid, k, i, data, job, addHasher)
  {
    hide Sum, Total, Listed, PieceOk, AllocatePiece, CacheEvict.Evicted, CacheEvict.CursorsOk;
    ghost var s := c.View();
    AllocatedPiece(s, k, n);
    AllocatedCursors(s, k, n);
    c.AllocatePiece(k, n, WRITE_LRU);
    left := CacheEvict.TryEvictBlocks(c, evict, Some(k));
    mid := c.View();
    CacheEvict.ListIsPlain(mid, WRITE_LRU);
    c.DirtyBlock(k, i, data, job, addHasher);
  }

  // ----- build_iovec() -----

  /** The blocks of a range that a flush takes, in order. */
  function Chosen(bs: seq<Block>, start: nat, end: nat): (r: seq<nat>)
    requires end <= |bs|
    ensures forall m :: 0 <= m < |r| ==> start <= r[m] < end && ToFlush(bs[r[m]])
    ensures forall m, n :: 0 <= m < n < |r| ==> r[m] < r[n]
    ensures |r| <= if end <= start then 0 else end - start
    ensures forall i :: start <= i < end && ToFlush(bs[i]) ==> i in r
  {
    if end <= start then []
    else Chosen(bs, start, end - 1) + (if ToFlush(bs[end - 1]) then [end - 1] else [])
  }

  /** A buffer and how much of it is written. */
  datatype Iovec = Iovec(buf: Bytes, size: nat)

  /** The length build_iovec() gives the buffer of block i. It counts down from the size of
      the piece, from start on. */
  function IovLength(pieceSize: nat, start: nat, i: nat): int {
    var left := pieceSize - (i - start) * DEFAULT_BLOCK_SIZE;
    if left < DEFAULT_BLOCK_SIZE then left else DEFAULT_BLOCK_SIZE
  }

  /** It is the length of the block exactly for a flush from the first block on, or for a
      block of full length: a flush that starts further on writes the short last block of a
      piece in full length. */
  lemma LengthIsRightIff(pieceSize: nat, start: nat, i: nat)
    requires start <= i && i * DEFAULT_BLOCK_SIZE < pieceSize
    ensures IovLength(pieceSize, start, i) == BlockLength(pieceSize, i)
      <==> start == 0 || BlockLength(pieceSize, i) == DEFAULT_BLOCK_SIZE
  {
  }

  /** The record of a block that is now being written. */
  lemma FlushRangeNext(bs: seq<Block>, start: nat, i: nat)
    requires start <= i < |bs|
    ensures FlushRange(bs, start, i)[i] == bs[i]
    ensures ToFlush(bs[i]) ==> FlushRange(bs, start, i)[i := Flushing(bs[i])] == FlushRange(bs, start, i + 1)
    ensures !ToFlush(bs[i]) ==> FlushRange(bs, start, i) == FlushRange(bs, start, i + 1)
  {
    hide FlushRange, ToFlush, Flushing;
  }

  lemma PendingKeepsSums(bs: seq<Block>, i: nat)
    requires i < |bs|
    ensures forall m: Measure :: Sum(bs[i := bs[i].(pending := true)], m) == Sum(bs, m)
  {
    hide Sum;
    forall m: Measure
      ensures Sum(bs[i := bs[i].(pending := true)], m) == Sum(bs, m)
    {
      SumUpdate(bs, i, bs[i].(pending := true), m);
    }
  }

  /** Takes the reference and marks the block. */
  method LockForFlush(c: BlockCache.Cache, k: Key, i: nat, ghost s: State, ghost start: nat)
    requires c.Valid() && Inv(s) && k in s.pieces && start <= i < |s.pieces[k].blocks|
    requires c.View() == StartFlush(s, k, start, i) && ToFlush(s.pieces[k].blocks[i])
    modifies c`pieces, c`pinnedBlocks
    ensures c.Valid() && c.View() == StartFlush(s, k, start, i + 1)
  {
    hide Sum, Total, FlushRange, Listed;
    ghost var bs := s.pieces[k].blocks;
    FlushRangeNext(bs, start, i);
    var locked := c.IncBlockRefcount(k, i, RefFlushing);
    assert locked;
    ghost var t := c.View();
    var p := c.pieces[k];
    PendingKeepsSums(p.blocks, i);
    p := p.(blocks := p.blocks[i := p.blocks[i].(pending := true)]);
    FlushedRecord(s, k, start, i, t, p);
    StartFlushKeepsInv(s, k, start, i + 1);
    c.Store(k, p, t);
  }

  lemma FlushedRecord(s: State, k: Key, start: nat, i: nat, t: State, p: Piece)
    requires Inv(s) && k in s.pieces && start <= i < |s.pieces[k].blocks| && ToFlush(s.pieces[k].blocks[i])
    requires HasBlock(StartFlush(s, k, start, i), k, i)
    requires t == IncRef(StartFlush(s, k, start, i), k, i, RefFlushing)
    requires k in t.pieces && i < |t.pieces[k].blocks|
    requires Counted(t.pieces[k])
    requires forall m: Measure :: Sum(t.pieces[k].blocks[i := t.pieces[k].blocks[i].(pending := true)], m) == Sum(t.pieces[k].blocks, m)
    requires p == t.pieces[k].(blocks := t.pieces[k].blocks[i := t.pieces[k].blocks[i].(pending := true)])
    ensures Counted(p) && Put(t, k, p) == StartFlush(s, k, start, i + 1)
  {
    hide Sum, FlushRange, Listed;
    var bs := s.pieces[k].blocks;
    FlushRangeNext(bs, start, i);
    var u := StartFlush(s, k, start, i);
    assert u.pieces[k].blocks == FlushRange(bs, start, i);
    assert t.pieces[k].blocks == u.pieces[k].blocks[i := Referenced(bs[i], RefFlushing)];
    assert p.blocks == FlushRange(bs, start, i)[i := Flushing(bs[i])];
    assert Put(t, k, p).pieces == s.pieces[k := p];
  }

  lemma NothingStarted(s: State, k: Key, start: nat)
    requires Inv(s) && k in s.pieces
    ensures StartFlush(s, k, start, start) == s
  {
    hide Sum;
    NothingToFlush(s.pieces[k].blocks, start, start);
    assert s.pieces[k := s.pieces[k]] == s.pieces;
  }

  /** The lists hold the chosen blocks, offset by base, and their buffers. */
  ghost predicate Built(iov: seq<Iovec>, flushing: seq<nat>, bs: seq<Block>, start: nat, end: nat, base: nat, pieceSize: nat)
    requires end <= |bs|
  {
    var chosen := Chosen(bs, start, end);
    && |iov| == |flushing| == |chosen|
    && forall m :: 0 <= m < |chosen| ==> BuiltAt(iov[m], flushing[m], bs, chosen[m], start, base, pieceSize)
  }

  predicate BuiltAt(v: Iovec, f: nat, bs: seq<Block>, i: nat, start: nat, base: nat, pieceSize: nat)
    requires i < |bs| && bs[i].buf.Some?
  {
    f == i + base && v.buf == bs[i].buf.value && v.size == IovLength(pieceSize, start, i)
  }

  lemma BuiltNext(iov: seq<Iovec>, flushing: seq<nat>, bs: seq<Block>, start: nat, i: nat, base: nat, pieceSize: nat,
                  v: Iovec)
    requires start <= i < |bs| && Built(iov, flushing, bs, start, i, base, pieceSize)
    ensures !ToFlush(bs[i]) ==> Built(iov, flushing, bs, start, i + 1, base, pieceSize)
    ensures ToFlush(bs[i]) && BuiltAt(v, i + base, bs, i, start, base, pieceSize) ==>
      Built(iov + [v], flushing + [i + base], bs, start, i + 1, base, pieceSize)
  {
  }

  /** The blocks of the range that are dirty and not being written already are locked and
      marked, and listed with their buffers. */
  method BuildIovec(c: BlockCache.Cache, k: Key, start: nat, end: nat, iov: array<Iovec>, flushing: array<nat>,
                    base: nat, pieceSize: nat) returns (n: nat)
    requires c.Valid() && k in c.pieces && start < end
    requires iov.Length >= |c.pieces[k].blocks| && flushing.Length >= |c.pieces[k].blocks|
    requires |c.pieces[k].blocks| * DEFAULT_BLOCK_SIZE < pieceSize + DEFAULT_BLOCK_SIZE
    modifies c`pieces, c`pinnedBlocks, iov, flushing
    ensures c.Valid() && n <= iov.Length && n <= flushing.Length
    ensures var bs := old(c.pieces)[k].blocks;
      var e := if end < |bs| then end else |bs|;
      && c.View() == StartFlush(old(c.View()), k, start, e)
      && Built(iov[..n], flushing[..n], bs, start, e, base, pieceSize)
  {
    hide Sum, Total, FlushRange, Listed, PieceOk, Built, BuiltAt, Chosen, StartFlush;
    ghost var s, bs := c.View(), c.pieces[k].blocks;
    var e := if end < |c.pieces[k].blocks| then end else |c.pieces[k].blocks|;
    NothingStarted(s, k, start);
    NothingBuilt(s, k, start, e, base, pieceSize);
    n := 0;
    if e <= start {
      return;
    }
    var sizeLeft := pieceSize;
    for i := start to e
      invariant c.Valid() && c.View() == StartFlush(s, k, start, i)
      invariant sizeLeft == pieceSize - (i - start) * DEFAULT_BLOCK_SIZE
      invariant n <= i - start && Built(iov[..n], flushing[..n], bs, start, i, base, pieceSize)
    {
      StartFlushNext(s, k, start, i);
      var b := c.pieces[k].blocks[i];
      var v := Iovec(if b.buf.Some? then b.buf.value else "",
                     if DEFAULT_BLOCK_SIZE < sizeLeft then DEFAULT_BLOCK_SIZE else sizeLeft);
      IsBuiltAt(bs, i, start, base, pieceSize);
      BuiltNext(iov[..n], flushing[..n], bs, start, i, base, pieceSize, v);
      if !(b.buf.None? || b.pending || !b.dirty) {
        LockForFlush(c, k, i, s, start);
        flushing[n], iov[n] := i + base, v;
        assert iov[..n + 1] == iov[..n] + [v] && flushing[..n + 1] == flushing[..n] + [i + base];
        n := n + 1;
      }
      sizeLeft := sizeLeft - DEFAULT_BLOCK_SIZE;
    }
  }

  lemma IsBuiltAt(bs: seq<Block>, i: nat, start: nat, base: nat, pieceSize: nat)
    requires start <= i < |bs| && i * DEFAULT_BLOCK_SIZE < pieceSize
    ensures IovLength(pieceSize, start, i) >= 0
    ensures bs[i].buf.Some? ==>
      BuiltAt(Iovec(bs[i].buf.value, IovLength(pieceSize, start, i)), i + base, bs, i, start, base, pieceSize)
  {
  }

  lemma NothingBuilt(s: State, k: Key, start: nat, e: nat, base: nat, pieceSize: nat)
    requires k in s.pieces && e <= |s.pieces[k].blocks|
    ensures start <= e ==> Built([], [], s.pieces[k].blocks, start, start, base, pieceSize)
    ensures e <= start ==>
      && Built([], [], s.pieces[k].blocks, start, e, base, pieceSize)
      && StartFlush(s, k, start, e) == StartFlush(s, k, start, start)
  {
    hide Sum;
    if e <= start {
      assert FlushRange(s.pieces[k].blocks, start, e) == FlushRange(s.pieces[k].blocks, start, start);
    }
  }

  lemma StartFlushNext(s: State, k: Key, start: nat, i: nat)
    requires k in s.pieces && start <= i < |s.pieces[k].blocks|
    ensures HasBlock(StartFlush(s, k, start, i), k, i)
    ensures StartFlush(s, k, start, i).pieces[k].blocks[i] == s.pieces[k].blocks[i]
    ensures |StartFlush(s, k, start, i).pieces[k].blocks| == |s.pieces[k].blocks|
    ensures !ToFlush(s.pieces[k].blocks[i]) ==> StartFlush(s, k, start, i) == StartFlush(s, k, start, i + 1)
  {
    hide Sum, FlushRange;
    FlushRangeNext(s.pieces[k].blocks, start, i);
  }

  // ----- flush_iovec() -----

  /** One call of writev(): buffers written one behind the other from a block of a piece on. */
  datatype Write = Write(piece: nat, offset: nat, buffers: seq<Iovec>)

  /** Blocks are numbered on across the pieces of a flush. */
  function PieceAt(block: nat, blocksInPiece: nat): nat
    requires blocksInPiece > 0
  {
    block / blocksInPiece
  }

  function BlockAt(block: nat, blocksInPiece: nat): nat
    requires blocksInPiece > 0
  {
    block % blocksInPiece
  }

  predicate Consecutive(flushing: seq<nat>, from: nat, to: nat)
    requires from < to <= |flushing|
  {
    forall m :: from <= m < to ==> flushing[m] == flushing[from] + (m - from)
  }

  /** No run of consecutive blocks goes on across place m. */
  predicate Breaks(flushing: seq<nat>, m: nat) {
    0 < m < |flushing| ==> flushing[m] != flushing[m - 1] + 1
  }

  /** The run of consecutive blocks that flush_iovec() writes with one call. */
  ghost predicate IsRun(w: Write, iov: seq<Iovec>, flushing: seq<nat>, from: nat, to: nat, piece: nat, blocksInPiece: nat)
    requires |iov| == |flushing| && blocksInPiece > 0
  {
    && from < to <= |flushing|
    && Consecutive(flushing, from, to) && Breaks(flushing, from) && Breaks(flushing, to)
    && w == Write(piece + PieceAt(flushing[from], blocksInPiece),
                  BlockAt(flushing[from], blocksInPiece) * DEFAULT_BLOCK_SIZE, iov[from..to])
  }

  /** The writes are the runs of the list, one after the other: cuts[r] is where run r starts. */
  ghost predicate AreRuns(writes: seq<Write>, cuts: seq<nat>, iov: seq<Iovec>, flushing: seq<nat>, piece: nat, blocksInPiece: nat)
    requires |iov| == |flushing| && blocksInPiece > 0
  {
    && |cuts| == |writes| + 1 && cuts[0] == 0
    && forall r :: 0 <= r < |writes| ==> IsRun(writes[r], iov, flushing, cuts[r], cuts[r + 1], piece, blocksInPiece)
  }

  /** The buffers are written in maximal runs of consecutive blocks, every buffer once. */
  method FlushIovec(iov: array<Iovec>, flushing: array<nat>, numBlocks: nat, piece: nat, blocksInPiece: nat)
      returns (writes: seq<Write>, ghost cuts: seq<nat>)
    requires 0 < numBlocks <= iov.Length && numBlocks <= flushing.Length && blocksInPiece > 0
    ensures AreRuns(writes, cuts, iov[..numBlocks], flushing[..numBlocks], piece, blocksInPiece)
    ensures cuts[|cuts| - 1] == numBlocks
  {
    hide PieceAt, BlockAt, IsRun;
    writes, cuts := [], [0];
    var flushingStart := 0;
    ghost var iovs, blocks := iov[..numBlocks], flushing[..numBlocks];
    for i := 1 to numBlocks + 1
      invariant flushingStart < i && (flushingStart == numBlocks ==> i == numBlocks + 1)
      invariant flushingStart <= numBlocks
      invariant AreRuns(writes, cuts, iovs, blocks, piece, blocksInPiece)
      invariant cuts[|cuts| - 1] == flushingStart
      invariant i == numBlocks + 1 ==> flushingStart == numBlocks
      invariant i <= numBlocks ==> Consecutive(blocks, flushingStart, i) && Breaks(blocks, flushingStart)
    {
      if i < numBlocks && flushing[i] == flushing[i - 1] + 1 {
        continue;
      }
      var w := Write(piece + PieceAt(flushing[flushingStart], blocksInPiece),
                     BlockAt(flushing[flushingStart], blocksInPiece) * DEFAULT_BLOCK_SIZE, iov[flushingStart..i]);
      assert iov[flushingStart..i] == iovs[flushingStart..i];
      OneMoreRun(writes, cuts, w, i, iovs, blocks, piece, blocksInPiece);
      writes, cuts := writes + [w], cuts + [i];
      flushingStart := i;
    }
  }

  lemma OneMoreRun(writes: seq<Write>, cuts: seq<nat>, w: Write, i: nat, iov: seq<Iovec>, flushing: seq<nat>,
                   piece: nat, blocksInPiece: nat)
    requires |iov| == |flushing| && blocksInPiece > 0
    requires AreRuns(writes, cuts, iov, flushing, piece, blocksInPiece)
    requires var from := cuts[|cuts| - 1];
      && from < i <= |flushing|
      && Consecutive(flushing, from, i) && Breaks(flushing, from) && Breaks(flushing, i)
      && w == Write(piece + PieceAt(flushing[from], blocksInPiece),
                    BlockAt(flushing[from], blocksInPiece) * DEFAULT_BLOCK_SIZE, iov[from..i])
    ensures AreRuns(writes + [w], cuts + [i], iov, flushing, piece, blocksInPiece)
  {
    hide PieceAt, BlockAt;
    var all, ends := writes + [w], cuts + [i];
    forall r | 0 <= r < |all|
      ensures IsRun(all[r], iov, flushing, ends[r], ends[r + 1], piece, blocksInPiece)
    {
      if r < |writes| {
        assert IsRun(writes[r], iov, flushing, cuts[r], cuts[r + 1], piece, blocksInPiece);
      }
    }
  }

  /** Which block of the piece buffer m of a write goes to. */
  function BlockOf(w: Write, m: nat): nat {
    w.offset / DEFAULT_BLOCK_SIZE + m
  }

  /** Every listed block is written exactly once, by the write of its run, at its own place,
      which is counted on from the first piece; in the first piece if the run starts there. */
  lemma EveryBlockWrittenOnce(writes: seq<Write>, cuts: seq<nat>, iov: seq<Iovec>, flushing: seq<nat>, piece: nat,
                              blocksInPiece: nat, m: nat) returns (r: nat)
    requires |iov| == |flushing| && blocksInPiece > 0 && m < |flushing|
    requires AreRuns(writes, cuts, iov, flushing, piece, blocksInPiece) && cuts[|cuts| - 1] == |flushing|
    ensures r < |writes| && cuts[r] <= m < cuts[r + 1]
    ensures forall q :: 0 <= q < |writes| && cuts[q] <= m < cuts[q + 1] ==> q == r
    ensures m - cuts[r] < |writes[r].buffers| && writes[r].buffers[m - cuts[r]] == iov[m]
    ensures (writes[r].piece - piece) * blocksInPiece + BlockOf(writes[r], m - cuts[r]) == flushing[m]
    ensures writes[r].offset % DEFAULT_BLOCK_SIZE == 0 && BlockOf(writes[r], 0) < blocksInPiece
    ensures flushing[cuts[r]] < blocksInPiece ==>
      writes[r].piece == piece && BlockOf(writes[r], m - cuts[r]) == flushing[m]
  {
    hide PieceAt, BlockAt;
    r := FindRun(cuts, m, |writes|);
    CutsOfRuns(writes, cuts, iov, flushing, piece, blocksInPiece);
    assert IsRun(writes[r], iov, flushing, cuts[r], cuts[r + 1], piece, blocksInPiece);
    DivMod(flushing[cuts[r]], blocksInPiece);
    assert Consecutive(flushing, cuts[r], cuts[r + 1]);
  }

  lemma CutsOfRuns(writes: seq<Write>, cuts: seq<nat>, iov: seq<Iovec>, flushing: seq<nat>, piece: nat, blocksInPiece: nat)
    requires |iov| == |flushing| && blocksInPiece > 0 && AreRuns(writes, cuts, iov, flushing, piece, blocksInPiece)
    ensures forall q, r :: 0 <= q < r < |cuts| ==> cuts[q] < cuts[r]
  {
    forall r {:trigger cuts[r]} | 0 <= r < |cuts| - 1
      ensures cuts[r] < cuts[r + 1]
    {
      assert IsRun(writes[r], iov, flushing, cuts[r], cuts[r + 1], piece, blocksInPiece);
    }
    CutsIncrease(cuts);
  }

  lemma DivMod(x: nat, n: nat)
    requires n > 0
    ensures PieceAt(x, n) * n + BlockAt(x, n) == x && BlockAt(x, n) < n
    ensures x < n ==> PieceAt(x, n) == 0
  {
  }

  lemma FindRun(cuts: seq<nat>, m: nat, n: nat) returns (r: nat)
    requires |cuts| == n + 1 && cuts[0] == 0 && m < cuts[n]
    ensures r < n && cuts[r] <= m < cuts[r + 1]
  {
    r := 0;
    while cuts[r + 1] <= m
      invariant r < n && cuts[r] <= m
      decreases n - r
    {
      r := r + 1;
    }
  }

  lemma CutsIncrease(cuts: seq<nat>)
    requires forall r {:trigger cuts[r]} :: 0 <= r < |cuts| - 1 ==> cuts[r] < cuts[r + 1]
    ensures forall q, r :: 0 <= q < r < |cuts| ==> cuts[q] < cuts[r]
  {
    if |cuts| > 1 {
      var init := cuts[..|cuts| - 1];
      CutsIncrease(init);
      forall q, r | 0 <= q < r < |cuts|
        ensures cuts[q] < cuts[r]
      {
        if r == |cuts| - 1 {
          assert cuts[r - 1] < cuts[r];
          assert q < r - 1 ==> init[q] < init[r - 1];
        } else {
          assert init[q] < init[r];
        }
      }
    }
  }

  // ----- iovec_flushed() -----

  /** A job that was answered, and whether with the error of the write. */
  datatype Answered = Answered(job: Job, failed: bool)

  /** What the jobs that waited are told: those at the places at are answered, with the error
      if there was one; the others go on waiting. After an error all of them are answered,
      otherwise those whose block is neither dirty nor being written. */
  ghost predicate Told(jobs: seq<Job>, bs: seq<Block>, error: bool, answers: seq<Answered>, at: seq<nat>,
                       left: seq<Job>, kept: seq<nat>)
  {
    && Places(at, |jobs|) && |answers| == |at|
    && (forall m :: 0 <= m < |at| ==> answers[m] == Answered(jobs[at[m]], error))
    && Picked(jobs, kept, left)
    && (forall i :: 0 <= i < |jobs| ==>
          (i in at <==> error || (jobs[i].block < |bs| && !bs[jobs[i].block].dirty && !bs[jobs[i].block].pending)))
    && (forall i :: 0 <= i < |jobs| ==> (i in kept <==> i !in at))
  }

  lemma ToldNext(jobs: seq<Job>, bs: seq<Block>, error: bool, answers: seq<Answered>, at: seq<nat>,
                 left: seq<Job>, kept: seq<nat>, j: Job)
    requires Told(jobs, bs, error, answers, at, left, kept)
    ensures error || Completed(bs, j) ==>
      Told(jobs + [j], bs, error, answers + [Answered(j, error)], at + [|jobs|], left, kept)
    ensures !error && !Completed(bs, j) ==> Told(jobs + [j], bs, error, answers, at, left + [j], kept + [|jobs|])
  {
    PickNext(jobs, kept, left, j);
  }

  lemma NextJob(bs: seq<Block>, jobs: seq<Job>, n: nat)
    requires n < |jobs|
    ensures Unfinished(bs, jobs[..n + 1]) == Unfinished(bs, jobs[..n]) + if Completed(bs, jobs[n]) then [] else [jobs[n]]
  {
    assert jobs[..n + 1][..n] == jobs[..n];
  }

  /** The loop of fail_jobs_impl(): the jobs are taken off one by one. */
  method FailJobs(jobs: seq<Job>, ghost bs: seq<Block>) returns (done: seq<Answered>, ghost at: seq<nat>)
    ensures Told(jobs, bs, true, done, at, [], [])
  {
    hide Told;
    var left := jobs;
    done, at := [], [];
    NothingTold(bs, true);
    ghost var n := 0;
    while left != []
      invariant n <= |jobs| && left == jobs[n..]
      invariant Told(jobs[..n], bs, true, done, at, [], [])
      decreases |left|
    {
      ToldNext(jobs[..n], bs, true, done, at, [], [], left[0]);
      assert jobs[..n + 1] == jobs[..n] + [left[0]];
      done, at := done + [Answered(left[0], true)], at + [n];
      left, n := left[1..], n + 1;
    }
    assert jobs[..n] == jobs;
  }

  lemma NothingTold(bs: seq<Block>, error: bool)
    ensures Told([], bs, error, [], [], [], [])
  {
  }

  /** What happens to the jobs of a piece when a flush of it ended. */
  method FinishJobs(p: Piece, error: bool)
      returns (left: seq<Job>, done: seq<Answered>, ghost at: seq<nat>, ghost kept: seq<nat>)
    ensures left == JobsLeft(p, error) && Told(p.jobs, p.blocks, error, done, at, left, kept)
  {
    hide Told, Unfinished;
    left, done, at, kept := [], [], [], [];
    if error {
      done, at := FailJobs(p.jobs, p.blocks);
      return;
    }
    assert p.jobs[..0] == [];
    NoJobs(p.blocks);
    NothingTold(p.blocks, false);
    for n := 0 to |p.jobs|
      invariant left == Unfinished(p.blocks, p.jobs[..n])
      invariant Told(p.jobs[..n], p.blocks, false, done, at, left, kept)
    {
      var j := p.jobs[n];
      NextJob(p.blocks, p.jobs, n);
      ToldNext(p.jobs[..n], p.blocks, false, done, at, left, kept, j);
      assert p.jobs[..n + 1] == p.jobs[..n] + [j];
      if Completed(p.blocks, j) {
        done, at := done + [Answered(j, false)], at + [n];
      } else {
        left, kept := left + [j], kept + [n];
      }
    }
    assert p.jobs[..|p.jobs|] == p.jobs;
  }

  lemma NoJobs(bs: seq<Block>)
    ensures Unfinished(bs, []) == []
  {
  }

  /** The block numbers within the piece. */
  function Relative(flushing: seq<nat>, blockOffset: nat): (r: seq<nat>)
    requires forall m :: 0 <= m < |flushing| ==> flushing[m] >= blockOffset
    ensures |r| == |flushing|
    ensures forall m :: 0 <= m < |flushing| ==> r[m] == flushing[m] - blockOffset
  {
    if flushing == [] then []
    else Relative(flushing[..|flushing| - 1], blockOffset) + [flushing[|flushing| - 1] - blockOffset]
  }

  method MakeRelative(flushing: array<nat>, numBlocks: nat, blockOffset: nat)
    requires numBlocks <= flushing.Length
    requires forall m :: 0 <= m < numBlocks ==> flushing[m] >= blockOffset
    modifies flushing
    ensures forall m :: 0 <= m < numBlocks ==> old(flushing[m]) >= blockOffset
    ensures flushing[..numBlocks] == Relative(old(flushing[..numBlocks]), blockOffset)
  {
    for i := 0 to numBlocks
      invariant forall m :: 0 <= m < i ==> flushing[m] == old(flushing[m]) - blockOffset
      invariant forall m :: i <= m < numBlocks ==> flushing[m] == old(flushing[m])
    {
      flushing[i] := flushing[i] - blockOffset;
    }
    ghost var was := old(flushing[..numBlocks]);
    hide Relative;
    assert flushing[..numBlocks] == Relative(was, blockOffset);
  }

  /** The second locked region of a flush: all its blocks are marked as written, and unless
      that freed the piece, its jobs are answered. */
  method IovecFlushed(c: BlockCache.Cache, k: Key, flushing: array<nat>, numBlocks: nat, blockOffset: nat, error: bool,
                      completed: seq<Answered>)
      returns (freed: bool, completed': seq<Answered>, ghost at: seq<nat>, ghost kept: seq<nat>)
    requires c.Valid() && k in c.pieces && numBlocks <= flushing.Length
    requires forall m :: 0 <= m < numBlocks ==> flushing[m] >= blockOffset
    requires FlushedOk(c.pieces[k].blocks, Relative(flushing[..numBlocks], blockOffset))
    modifies c, flushing
    ensures c.Valid()
    ensures forall m :: 0 <= m < numBlocks ==> old(flushing[m]) >= blockOffset
    ensures var flushed := Relative(old(flushing[..numBlocks]), blockOffset);
      && c.View() == CacheFill.IovecFlushed(old(c.View()), k, flushed, error, old(c.ghostSize))
      && freed == Freeable(Marked(old(c.View()), k, flushed).pieces[k])
    ensures freed ==> completed' == completed
    ensures !freed ==>
      && k in c.pieces && completed <= completed'
      && Told(old(c.pieces)[k].jobs, c.pieces[k].blocks, error, completed'[|completed|..], at, c.pieces[k].jobs, kept)
  {
    hide Sum, Total, Listed, PieceOk, Marked, MaybeFreePiece, Freeable, FlushedOk, JobsLeft, Told;
    ghost var s := c.View();
    ghost var flushed := Relative(flushing[..numBlocks], blockOffset);
    MakeRelative(flushing, numBlocks, blockOffset);
    MarkedKeepsInv(s, k, flushed);
    completed', at, kept := completed, [], [];
    freed := c.BlocksFlushed(k, flushing[..numBlocks]);
    if freed {
      return;
    }
    ghost var t := c.View();
    NotFreed(Marked(s, k, flushed), k, c.ghostSize);
    var left, done;
    left, done, at, kept := FinishJobs(c.pieces[k], error);
    FinishKeepsInv(t, k, error);
    var p := c.pieces[k].(jobs := left);
    SameCounts(t, k, p);
    c.Store(k, p, t);
    completed' := completed + done;
    assert completed'[|completed|..] == done;
  }

  lemma NotFreed(s: State, k: Key, size: nat)
    requires Listed(s) && k in s.pieces && size > 0 && !Freeable(s.pieces[k])
    ensures MaybeFreePiece(s, k, size) == s
  {
  }

  lemma SameCounts(s: State, k: Key, p: Piece)
    requires Inv(s) && k in s.pieces && p == s.pieces[k].(jobs := p.jobs)
    ensures PieceOk(p) && Counted(p) && forall x :: x in s.pieces ==> Counted(s.pieces[x])
  {
    hide Sum, Listed;
    assert PieceOk(s.pieces[k]);
    forall x | x in s.pieces
      ensures Counted(s.pieces[x])
    {
      assert PieceOk(s.pieces[x]);
    }
  }
}
