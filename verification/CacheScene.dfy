/** Runs of the cache that are written out step by step: one piece, of which every field is
    known. */
module CacheScene {
  import opened Options
  import opened CacheModel
  import opened CacheOps
  import opened CacheFill
  import opened CacheSystem
  import opened CacheRuns
  import CacheEvict
  import CacheFlush

  const PIECE := Key(0, 0)

  function At(i: nat): Place {
    Place(PIECE, i)
  }

  /** The record of a piece that nobody uses but through references to its blocks. */
  function Record(bs: seq<Block>, jobs: seq<Job>, marked: bool, cacheState: nat): Piece {
    Recount(NewPiece(0, cacheState), bs).(jobs := jobs, markedForEviction := marked)
  }

  /** The piece is cached with these blocks and jobs. */
  ghost predicate Holds(w: World, bs: seq<Block>, jobs: seq<Job>, marked: bool) {
    && Inv(w.cache) && w.size == 8 && PIECE in w.cache.pieces
    && w.cache.pieces[PIECE] == Record(bs, jobs, marked, w.cache.pieces[PIECE].cacheState)
  }

  lemma HeldCell(w: World, bs: seq<Block>, jobs: seq<Job>, marked: bool, i: nat)
    requires Holds(w, bs, jobs, marked) && i < |bs|
    ensures HasBlock(w.cache, PIECE, i) && Cell(w.cache, At(i)) == bs[i] && BlockOk(bs[i])
  {
    hide Sum, Listed;
    assert PieceOk(w.cache.pieces[PIECE]);
  }

  lemma HeldPiece(w: World, bs: seq<Block>, jobs: seq<Job>, marked: bool)
    requires Holds(w, bs, jobs, marked)
    ensures Inv(w.cache) && w.size == 8 && PIECE in w.cache.pieces
    ensures var p := w.cache.pieces[PIECE]; p.blocks == bs && p.jobs == jobs && p.markedForEviction == marked
  {
    hide Inv, Sum;
  }

  lemma HeldPut(w: World, bs: seq<Block>, jobs: seq<Job>, marked: bool, i: nat, b: Block)
    requires Holds(w, bs, jobs, marked) && i < |bs| && Inv(PutBlock(w.cache, PIECE, i, b))
    ensures Holds(w.(cache := PutBlock(w.cache, PIECE, i, b)), bs[i := b], jobs, marked)
  {
    hide Inv, Sum;
  }

  /** A run that is made longer by a step. */
  lemma {:induction false} Extend(w: World, run: seq<Event>, e: Event)
    requires IsRun(w, run) && Enabled(After(w, run), e) && Timely(After(w, run), e)
    ensures IsRun(w, run + [e]) && After(w, run + [e]) == Next(After(w, run), e)
    decreases |run|
  {
    hide Enabled, Timely, Next;
    if run == [] {
      assert run + [e] == [e] && [e][1..] == [];
    } else {
      assert (run + [e])[1..] == run[1..] + [e];
      Extend(Next(w, run[0]), run[1..], e);
    }
  }

  // ----- writing -----

  /** A write that evicts nothing; n is the number of blocks of the piece. */
  ghost function Writing(w: World, n: nat, i: nat, data: Bytes, job: nat): Event
    requires Inv(w.cache)
    ensures Writing(w, n, i, data, job).WriteTo?
  {
    WriteTo(At(i), n, data, job, false, AllocatePiece(w.cache, PIECE, n, WRITE_LRU))
  }

  /** Nothing is cached, or the piece with these blocks. */
  ghost predicate Begins(w: World, bs: seq<Block>, jobs: seq<Job>) {
    || (Inv(w.cache) && w.cache == EmptyCache() && w.size == 8 && bs == EmptyBlocks(|bs|) && jobs == [])
    || Holds(w, bs, jobs, false)
  }

  lemma Allocates(w: World, bs: seq<Block>, jobs: seq<Job>)
    requires Begins(w, bs, jobs)
    ensures Inv(w.cache)
    ensures var mid := AllocatePiece(w.cache, PIECE, |bs|, WRITE_LRU);
      Inv(mid) && PIECE in mid.pieces && mid.pieces[PIECE] == Record(bs, jobs, false, WRITE_LRU)
  {
    hide Sum, Listed, PieceOk;
    AllocateKeepsInv(w.cache, PIECE, |bs|, WRITE_LRU);
    EmptySums(|bs|, Dirty);
    EmptySums(|bs|, Cached);
    EmptySums(|bs|, Measure.Refs);
    EmptySums(|bs|, Pinned);
    if w.cache != EmptyCache() {
      InvListed(w.cache, PIECE);
      assert PieceOk(w.cache.pieces[PIECE]);
      InAList(w.cache.pieces[PIECE]);
    }
  }

  lemma InAList(p: Piece)
    requires PieceOk(p)
    ensures WRITE_LRU <= p.cacheState
  {
  }

  lemma Writes(w: World, bs: seq<Block>, jobs: seq<Job>, i: nat, data: Bytes, job: nat)
    requires Begins(w, bs, jobs) && i < |bs| && bs[i].refcount == 0
    ensures Inv(w.cache) && Enabled(w, Writing(w, |bs|, i, data, job))
    ensures var v := Next(w, Writing(w, |bs|, i, data, job));
      Holds(v, bs[i := Dirtied(bs[i], data)], jobs + [Job(job, i)], false) && v == w.(cache := v.cache)
  {
    hide Inv, AllocatePiece, Sum, EmptyBlocks;
    Allocates(w, bs, jobs);
    var mid := AllocatePiece(w.cache, PIECE, |bs|, WRITE_LRU);
    CacheEvict.NothingEvicted(mid);
    InvListed(mid, PIECE);
    WriteBlockKeepsInv(mid, PIECE, i, data, job, false);
  }

  // ----- flushing -----

  lemma BeginsFlush(w: World, bs: seq<Block>, jobs: seq<Job>, marked: bool, end: nat)
    requires Holds(w, bs, jobs, marked) && w.flushes == map[] && end <= |bs|
    ensures Enabled(w, BeginFlush(0, PIECE, 0, end))
    ensures var v := Next(w, BeginFlush(0, PIECE, 0, end));
      && Holds(v, FlushRange(bs, 0, end), jobs, marked)
      && v == w.(cache := v.cache, flushes := map[0 := Flush(PIECE, CacheFlush.Chosen(bs, 0, end), 0, {})])
  {
    hide Inv, Sum, FlushRange, CacheFlush.Chosen;
    StartFlushKeepsInv(w.cache, PIECE, 0, end);
  }

  /** The end of a flush of a piece that is not marked. */
  lemma EndsFlush(w: World, bs: seq<Block>, jobs: seq<Job>, f: Flush)
    requires Holds(w, bs, jobs, false) && w.flushes == map[0 := f] && f.key == PIECE && f.done == |f.blocks|
    ensures Enabled(w, EndFlush(0))
    ensures var v, cs := Next(w, EndFlush(0)), FlushIn(bs, f.blocks);
      && Holds(v, cs, if f.failed != {} then [] else Unfinished(cs, jobs), false)
      && v == w.(cache := v.cache, flushes := map[])
  {
    hide Inv, Sum, FlushIn, Unfinished, Marked, MaybeFreePiece;
    var s, cs := w.cache, FlushIn(bs, f.blocks);
    MarkedKeepsInv(s, PIECE, f.blocks);
    MarkedRecord(s, bs, jobs, f.blocks);
    var t := Marked(s, PIECE, f.blocks);
    FinishKeepsInv(t, PIECE, f.failed != {});
    assert map[0 := f] - {0} == map[];
  }

  lemma MarkedRecord(s: State, bs: seq<Block>, jobs: seq<Job>, flushed: seq<nat>)
    requires Inv(s) && PIECE in s.pieces && s.pieces[PIECE] == Record(bs, jobs, false, s.pieces[PIECE].cacheState)
    ensures var p := Marked(s, PIECE, flushed).pieces;
      PIECE in p && p[PIECE] == Record(FlushIn(bs, flushed), jobs, false, p[PIECE].cacheState)
  {
    hide Inv, Sum, FlushIn;
    FlushKeepsPieceOkHere(s, flushed);
    var p := s.pieces[PIECE];
    PutKeepsInv(s, PIECE, Recount(p, FlushIn(p.blocks, flushed)));
    InvListed(Put(s, PIECE, Recount(p, FlushIn(p.blocks, flushed))), PIECE);
  }

  lemma FlushKeepsPieceOkHere(s: State, flushed: seq<nat>)
    requires Inv(s) && PIECE in s.pieces
    ensures PieceOk(Recount(s.pieces[PIECE], FlushIn(s.pieces[PIECE].blocks, flushed)))
  {
    hide Sum;
    assert PieceOk(s.pieces[PIECE]);
    FlushKeepsPieceOk(s.pieces[PIECE], flushed);
  }

  // ----- evicting -----

  /** The buffer of a clean block nobody refers to is evicted. */
  lemma Evicts(w: World, bs: seq<Block>, jobs: seq<Job>, marked: bool, i: nat) returns (after: State)
    requires Holds(w, bs, jobs, marked) && i < |bs| && Drops(DropClean, bs[i])
    ensures Enabled(w, Evict(after)) && Next(w, Evict(after)) == w.(cache := after)
    ensures Holds(w.(cache := after), bs[i := Emptied(bs[i])], jobs, marked)
  {
    hide Inv, Sum, CacheEvict.Evicted, CacheEvict.Kept;
    HeldCell(w, bs, jobs, marked, i);
    PutBlockKeepsInv(w.cache, PIECE, i, Emptied(bs[i]));
    after := PutBlock(w.cache, PIECE, i, Emptied(bs[i]));
    DroppedIsKept(w.cache.pieces[PIECE], bs, i);
    CacheEvict.PutEvicts(w.cache, PIECE, after.pieces[PIECE]);
  }

  lemma DroppedIsKept(p: Piece, bs: seq<Block>, i: nat)
    requires p == Recount(p, bs) && i < |bs| && Drops(DropClean, bs[i])
    ensures CacheEvict.Kept(p, Recount(p, bs[i := Emptied(bs[i])]))
  {
    hide Sum;
    SumUpdate(bs, i, Emptied(bs[i]), Dirty);
    SumUpdate(bs, i, Emptied(bs[i]), Measure.Refs);
    SumUpdate(bs, i, Emptied(bs[i]), Pinned);
    assert CacheEvict.ThinnerAt(bs[i], Emptied(bs[i]));
  }
}
