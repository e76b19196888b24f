/** What a flush that fails does: two runs of the cache in which a write that was accepted
    is lost, once because the block counts as written, once because its job is gone. */
module CacheFailure {
  import opened Options
  import opened CacheModel
  import opened CacheOps
  import opened CacheFill
  import opened CacheSystem
  import opened CacheRuns
  import opened CacheScene
  import CacheOutcomes
  import CacheFlush

  /** Nothing is cached. */
  function Start(): World {
    World(EmptyCache(), map[At(0) := "old", At(1) := "old"], map[], map[], 8)
  }

  function Written(data: Bytes): Block {
    Block(Some(data), true, false, false, 0, 0, 0, 0)
  }

  lemma StartBegins(n: nat)
    ensures Good(Start()) && Begins(Start(), EmptyBlocks(n), [])
  {
    InitialIsGood(map[At(0) := "old", At(1) := "old"], 8);
  }

  /** The run leads to where the piece is cached like this, and this is on the disk. */
  ghost predicate LeadsTo(run: seq<Event>, bs: seq<Block>, jobs: seq<Job>, disk: map<Place, Bytes>, flushes: map<nat, Flush>) {
    && IsRun(Start(), run)
    && var w := After(Start(), run);
      Holds(w, bs, jobs, false) && w.disk == disk && w.flushes == flushes && w.readers == map[]
  }

  lemma WriteNext(run: seq<Event>, bs: seq<Block>, jobs: seq<Job>, i: nat, data: Bytes, job: nat) returns (more: seq<Event>)
    requires LeadsTo(run, bs, jobs, Start().disk, map[]) && i < |bs| && bs[i].refcount == 0
    ensures LeadsTo(more, bs[i := Dirtied(bs[i], data)], jobs + [Job(job, i)], Start().disk, map[])
    ensures |more| == |run| + 1 && more[..|run|] == run && more[|run|].WriteTo? && more[|run|].at == At(i) && more[|run|].data == data
  {
    hide IsRun, After, Enabled, Next, Holds, Start;
    var w := After(Start(), run);
    Writes(w, bs, jobs, i, data, job);
    Extend(Start(), run, Writing(w, |bs|, i, data, job));
    more := run + [Writing(w, |bs|, i, data, job)];
  }

  lemma WriteFirst(n: nat, i: nat, data: Bytes) returns (run: seq<Event>)
    requires i < n
    ensures LeadsTo(run, EmptyBlocks(n)[i := Written(data)], [Job(0, i)], Start().disk, map[])
    ensures |run| == 1 && run[0].WriteTo? && run[0].at == At(i) && run[0].data == data
  {
    hide IsRun, After, Enabled, Next, Holds, Start, EmptyBlocks;
    StartBegins(n);
    Writes(Start(), EmptyBlocks(n), [], i, data, 0);
    var e := Writing(Start(), n, i, data, 0);
    NoSteps(Start());
    Extend(Start(), [], e);
    run := [] + [e];
    assert [] + [Job(0, i)] == [Job(0, i)];
    StartIsIdle();
  }

  lemma NoSteps(w: World)
    ensures IsRun(w, []) && After(w, []) == w
  {
  }

  lemma StartIsIdle()
    ensures Start().flushes == map[] && Start().readers == map[]
  {
  }

  lemma StoredStep(run: seq<Event>, at: Place, before: Bytes)
    requires run != []
    ensures Stored(run, at, before) == Stored(run[1..], at, Effect(run[0], at, before))
  {
  }

  lemma NothingStored(run: seq<Event>, at: Place, before: Bytes)
    requires run == []
    ensures Stored(run, at, before) == before
  {
  }

  // ----- the first block is flushed, in vain -----

  function InFlight(done: nat, failed: set<nat>): map<nat, Flush> {
    map[0 := Flush(PIECE, [0], done, failed)]
  }

  /** A flush of block 0 begins, and the write fails and changes nothing. */
  lemma FailNext(run: seq<Event>, bs: seq<Block>, jobs: seq<Job>) returns (more: seq<Event>)
    requires LeadsTo(run, bs, jobs, Start().disk, map[]) && |bs| > 0 && ToFlush(bs[0])
    ensures LeadsTo(more, bs[0 := Flushing(bs[0])], jobs, Start().disk, InFlight(1, {0}))
    ensures |more| == |run| + 2 && more[..|run|] == run && more[|run|] == BeginFlush(0, PIECE, 0, 1) && more[|run| + 1] == FailOut(0, "old")
  {
    hide IsRun, After, Enabled, Next, Holds, Start, CacheFlush.Chosen, FlushRange, ToFlush, Flushing;
    FirstChosen(bs);
    BeginsFlush(After(Start(), run), bs, jobs, false, 1);
    Extend(Start(), run, BeginFlush(0, PIECE, 0, 1));
    more := run + [BeginFlush(0, PIECE, 0, 1)];
    BufferThere(bs[0]);
    FailsOut(After(Start(), more), bs[0 := Flushing(bs[0])], jobs);
    Extend(Start(), more, FailOut(0, "old"));
    more := more + [FailOut(0, "old")];
  }

  lemma BufferThere(b: Block)
    requires ToFlush(b)
    ensures Flushing(b).buf.Some?
  {
  }

  lemma FirstChosen(bs: seq<Block>)
    requires |bs| > 0 && ToFlush(bs[0])
    ensures CacheFlush.Chosen(bs, 0, 1) == [0]
    ensures FlushRange(bs, 0, 1) == bs[0 := Flushing(bs[0])]
  {
    hide FlushRange, Flushing, ToFlush;
    assert CacheFlush.Chosen(bs, 0, 0) == [];
  }

  lemma FailsOut(w: World, bs: seq<Block>, jobs: seq<Job>)
    requires Holds(w, bs, jobs, false) && |bs| > 0 && bs[0].buf.Some?
    requires w.flushes == InFlight(0, {}) && w.disk == Start().disk && w.readers == map[]
    ensures Enabled(w, FailOut(0, "old"))
    ensures var v := Next(w, FailOut(0, "old"));
      v == w.(flushes := InFlight(1, {0})) && Holds(v, bs, jobs, false)
  {
    hide Inv, Sum;
    HeldCell(w, bs, jobs, false, 0);
    var none: set<nat> := {};
    assert none + {0} == {0};
    var v := Next(w, FailOut(0, "old"));
    assert v.disk == Start().disk;
    assert v.flushes == InFlight(1, {0});
  }

  /** Afterwards the block is clean and no job waits. */
  lemma FailureEnds(w: World, bs: seq<Block>, jobs: seq<Job>)
    requires |bs| > 0 && ToFlush(bs[0])
    requires Holds(w, bs[0 := Flushing(bs[0])], jobs, false) && w.flushes == InFlight(1, {0})
    ensures Enabled(w, EndFlush(0))
    ensures var v := Next(w, EndFlush(0));
      && v == w.(cache := v.cache, flushes := map[])
      && Holds(v, bs[0 := bs[0].(dirty := false)], [], false)
  {
    hide Inv, Holds, Enabled, Next, FlushIn;
    EndsFlush(w, bs[0 := Flushing(bs[0])], jobs, Flush(PIECE, [0], 1, {0}));
    HeldCell(w, bs[0 := Flushing(bs[0])], jobs, false, 0);
    FlushedBack(bs[0]);
    assert FlushIn(bs[0 := Flushing(bs[0])], [0]) == bs[0 := bs[0].(dirty := false)];
  }

  lemma FlushedBack(b: Block)
    requires ToFlush(b) && BlockOk(Flushing(b))
    ensures FlushDone(Flushing(b)) == b.(dirty := false)
  {
  }

  // ----- the block counts as written -----

  /** A write is accepted, its flush fails, and the block is clean with the new data while
      the disk has the old data; eviction makes it read as that. */
  lemma FailedFlushIsSeen() returns (run: seq<Event>, after: State)
    ensures IsRun(Start(), run) && Good(After(Start(), run))
    ensures var w := After(Start(), run);
      && Stored(run, At(0), "old") == Content(w, At(0)) == "new"
      && Enabled(w, EndFlush(0))
      && var v := Next(w, EndFlush(0));
        && Cell(v.cache, At(0)) == Written("new").(dirty := false) && DiskAt(v, At(0)) == "old"
        && Enabled(v, Evict(after))
        && Content(Next(v, Evict(after)), At(0)) == "old"
  {
    hide Inv, IsRun, After, Enabled, Next, Holds, Good, Content, Stored, Start, EmptyBlocks;
    run := WriteFirst(1, 0, "new");
    assert EmptyBlocks(1)[0 := Written("new")] == [Written("new")];
    run := FailNext(run, [Written("new")], [Job(0, 0)]);
    assert [Written("new")][0 := Flushing(Written("new"))] == [Flushing(Written("new"))];
    StoreOf(run);
    after := CleanIsLost(After(Start(), run));
  }

  lemma CleanIsLost(w: World) returns (after: State)
    requires Holds(w, [Flushing(Written("new"))], [Job(0, 0)], false)
    requires w.flushes == InFlight(1, {0}) && w.disk == Start().disk
    ensures Enabled(w, EndFlush(0))
    ensures var v := Next(w, EndFlush(0));
      && Cell(v.cache, At(0)) == Written("new").(dirty := false) && DiskAt(v, At(0)) == "old"
      && Enabled(v, Evict(after))
      && Content(Next(v, Evict(after)), At(0)) == "old"
  {
    hide Inv, Enabled, Next, Holds, Content, Start, Cell;
    assert [Written("new")][0 := Flushing(Written("new"))] == [Flushing(Written("new"))];
    FailureEnds(w, [Written("new")], [Job(0, 0)]);
    var v := Next(w, EndFlush(0));
    var clean := Written("new").(dirty := false);
    assert [Written("new")][0 := clean] == [clean];
    HeldCell(v, [clean], [], false, 0);
    after := Evicts(v, [clean], [], false, 0);
    HeldCell(v.(cache := after), [clean][0 := Emptied(clean)], [], false, 0);
    OnTheDisk(v);
    OnTheDisk(v.(cache := after));
    NoBuffer(v.(cache := after), At(0));
  }

  lemma StoreOf(run: seq<Event>)
    requires IsRun(Start(), run) && |run| == 3
    requires run[0].WriteTo? && run[0].at == At(0) && run[0].data == "new" && run[1].BeginFlush? && run[2].FailOut?
    ensures Good(After(Start(), run))
    ensures Stored(run, At(0), "old") == Content(After(Start(), run), At(0)) == "new"
  {
    hide Inv, IsRun, After, Good, Content, EmptyBlocks, Stored;
    StartBegins(0);
    RunIsAPlainStore(Start(), run, At(0));
    StartReads(0);
    StoredStep(run, At(0), "old");
    StoredStep(run[1..], At(0), "new");
    StoredStep(run[2..], At(0), "new");
    NothingStored(run[3..], At(0), "new");
  }

  lemma StartReads(i: nat)
    requires i < 2
    ensures Content(Start(), At(i)) == "old"
  {
  }

  lemma OnTheDisk(w: World)
    requires w.disk == Start().disk
    ensures DiskAt(w, At(0)) == DiskAt(w, At(1)) == "old"
  {
  }

  lemma NoBuffer(w: World, at: Place)
    requires Cell(w.cache, at).buf.None?
    ensures Content(w, at) == DiskAt(w, at)
  {
    hide Cell;
  }

  // ----- a block that is still dirty is dropped -----

  const LENT := Referenced(Written("new"), RefReading)

  /** Both blocks of a piece are written, and a reader borrows the second one. The flush of
      the first one fails. */
  lemma LendThenFail() returns (run: seq<Event>)
    ensures LeadsTo(run, [Flushing(Written("a")), LENT], [Job(0, 0), Job(1, 1)], Start().disk, InFlight(1, {0}))
    ensures Good(After(Start(), run)) && Stored(run, At(1), "old") == Content(After(Start(), run), At(1)) == "new"
  {
    hide Inv, IsRun, After, Enabled, Next, Holds, Good, Content, Stored, Start, EmptyBlocks;
    var bs := [Written("a"), Written("new")];
    run := WriteFirst(2, 0, "a");
    run := WriteNext(run, EmptyBlocks(2)[0 := Written("a")], [Job(0, 0)], 1, "new", 1);
    assert EmptyBlocks(2)[0 := Written("a")][1 := Written("new")] == bs;
    assert [Job(0, 0)] + [Job(1, 1)] == [Job(0, 0), Job(1, 1)];
    var w := After(Start(), run);
    var after := Lends(w, bs, [Job(0, 0), Job(1, 1)]);
    Extend(Start(), run, Rearrange(after));
    run := run + [Rearrange(after)];
    assert bs[1 := LENT] == [Written("a"), LENT];
    run := FailNext(run, [Written("a"), LENT], [Job(0, 0), Job(1, 1)]);
    assert [Written("a"), LENT][0 := Flushing(Written("a"))] == [Flushing(Written("a")), LENT];
    SecondIsStored(run);
  }

  lemma SecondIsStored(run: seq<Event>)
    requires IsRun(Start(), run) && |run| == 5
    requires run[0].WriteTo? && run[0].at == At(0) && run[1].WriteTo? && run[1].at == At(1) && run[1].data == "new"
    requires run[2].Rearrange? && run[3].BeginFlush? && run[4].FailOut?
    ensures Good(After(Start(), run))
    ensures Stored(run, At(1), "old") == Content(After(Start(), run), At(1)) == "new"
  {
    hide Inv, IsRun, After, Good, Content, EmptyBlocks, Stored;
    StartBegins(0);
    RunIsAPlainStore(Start(), run, At(1));
    StartReads(1);
    StoredStep(run, At(1), "old");
    StoredStep(run[1..], At(1), "old");
    StoredStep(run[2..], At(1), "new");
    StoredStep(run[3..], At(1), "new");
    StoredStep(run[4..], At(1), "new");
    NothingStored(run[5..], At(1), "new");
  }

  lemma Lends(w: World, bs: seq<Block>, jobs: seq<Job>) returns (after: State)
    requires Holds(w, bs, jobs, false) && |bs| == 2 && bs[1].buf.Some?
    ensures Enabled(w, Rearrange(after)) && Timely(w, Rearrange(after)) && Next(w, Rearrange(after)) == w.(cache := after)
    ensures Holds(w.(cache := after), bs[1 := Referenced(bs[1], RefReading)], jobs, false)
  {
    hide Inv, Rearranged, Holds, Cell, PutBlock;
    HeldPiece(w, bs, jobs, false);
    HeldCell(w, bs, jobs, false, 1);
    after := IncRef(w.cache, PIECE, 1, RefReading);
    CacheOutcomes.ReferencesRearrange(w.cache, PIECE, 1, RefReading);
    IncRefKeepsInv(w.cache, PIECE, 1, RefReading);
    HeldPut(w, bs, jobs, false, 1, Referenced(bs[1], RefReading));
  }

  lemma LentReturned()
    ensures LENT.refcount > 0 && Count(LENT, RefReading) > 0 && Released(LENT, RefReading) == Written("new")
  {
  }

  lemma GivesBack(w: World, bs: seq<Block>, marked: bool) returns (after: State)
    requires Holds(w, bs, [], marked) && |bs| == 2 && bs[1] == LENT
    ensures Enabled(w, Rearrange(after)) && Next(w, Rearrange(after)) == w.(cache := after)
    ensures Holds(w.(cache := after), bs[1 := Written("new")], [], marked)
  {
    hide Inv, Rearranged, Holds, Cell, PutBlock, Sum, Released, Referenced;
    HeldPiece(w, bs, [], marked);
    HeldCell(w, bs, [], marked, 1);
    LentReturned();
    after := DecRef(w.cache, PIECE, 1, RefReading);
    CacheOutcomes.ReferencesRearrange(w.cache, PIECE, 1, RefReading);
    DecRefKeepsInv(w.cache, PIECE, 1, RefReading);
    HeldPut(w, bs, [], marked, 1, Written("new"));
  }

  /** The piece is marked for eviction, which its lack of jobs allows; the lent block stays. */
  lemma Marks(w: World)
    requires Holds(w, [Written("a").(dirty := false), LENT], [], false)
    ensures Enabled(w, Mark(PIECE, true))
    ensures var v := Next(w, Mark(PIECE, true));
      v == w.(cache := v.cache) && Holds(v, [EMPTY_BLOCK, LENT], [], true)
  {
    hide Inv, Sum, MapBlocks, MoveToGhost;
    var bs := [Written("a").(dirty := false), LENT];
    var p := w.cache.pieces[PIECE];
    MarkKeepsInvHere(w.cache);
    assert MapBlocks(bs, DropUnreferenced) == [EMPTY_BLOCK, LENT];
    SumAtLeast([EMPTY_BLOCK, LENT], 1, Measure.Refs);
    assert Recount(p, [EMPTY_BLOCK, LENT]).refcount > 0;
  }

  lemma MarkKeepsInvHere(s: State)
    requires Inv(s) && PIECE in s.pieces
    ensures Listed(s) && Inv(MarkForEviction(s, PIECE, true, 8))
  {
    hide Sum, Listed, PieceOk, MarkForEviction;
    MarkKeepsInv(s, PIECE, true, 8);
  }

  /** When the block comes back, the piece is freed with it, though it is dirty. */
  lemma Frees(w: World)
    requires Holds(w, [EMPTY_BLOCK, Written("new")], [], true)
    ensures Enabled(w, MaybeFree(PIECE))
    ensures var v := Next(w, MaybeFree(PIECE));
      v == w.(cache := v.cache) && Cell(v.cache, At(1)).buf.None?
  {
    hide Inv, Sum, EvictPiece;
    var bs := [EMPTY_BLOCK, Written("new")];
    FreeableHere(w.cache.pieces[PIECE]);
    CacheOutcomes.FreedCellIsEmpty(w.cache, PIECE, true, 8, 1);
    InvIsListed(w.cache);
  }

  lemma InvIsListed(s: State)
    requires Inv(s)
    ensures Listed(s)
  {
  }

  lemma FreeableHere(p: Piece)
    requires p == Record([EMPTY_BLOCK, Written("new")], [], true, p.cacheState)
    ensures Freeable(p)
  {
    hide Sum;
    ZeroSum([EMPTY_BLOCK, Written("new")], Measure.Refs);
  }

  /** The failed flush of one block answers the job of another, which then is dropped while
      it is dirty: the block that was written reads as its old contents. */
  lemma DirtyBlockIsLost() returns (run: seq<Event>, back: State)
    ensures IsRun(Start(), run) && Good(After(Start(), run))
    ensures var w := After(Start(), run);
      && Stored(run, At(1), "old") == Content(w, At(1)) == "new"
      && Enabled(w, EndFlush(0))
      && var v := Next(w, EndFlush(0));
        && Enabled(v, Mark(PIECE, true))
        && var u := Next(v, Mark(PIECE, true));
          && Enabled(u, Rearrange(back))
          && var t := Next(u, Rearrange(back));
            && Cell(t.cache, At(1)).dirty && Enabled(t, MaybeFree(PIECE))
            && Content(Next(t, MaybeFree(PIECE)), At(1)) == "old"
  {
    hide Inv, IsRun, After, Enabled, Next, Holds, Good, Content, Stored, Start;
    run := LendThenFail();
    var w := After(Start(), run);
    var bs := [Written("a"), LENT];
    assert bs[0 := Flushing(Written("a"))] == [Flushing(Written("a")), LENT];
    FailureEnds(w, bs, [Job(0, 0), Job(1, 1)]);
    var v := Next(w, EndFlush(0));
    assert bs[0 := Written("a").(dirty := false)] == [Written("a").(dirty := false), LENT];
    Marks(v);
    var u := Next(v, Mark(PIECE, true));
    back := GivesBack(u, [EMPTY_BLOCK, LENT], true);
    var t := Next(u, Rearrange(back));
    assert [EMPTY_BLOCK, LENT][1 := Written("new")] == [EMPTY_BLOCK, Written("new")];
    HeldCell(t, [EMPTY_BLOCK, Written("new")], [], true, 1);
    Frees(t);
    OnTheDisk(Next(t, MaybeFree(PIECE)));
    NoBuffer(Next(t, MaybeFree(PIECE)), At(1));
  }
}
