/** A read that is overtaken by a write: a run of the cache in which a block that was written
    reads as its old contents again. */
module CacheStale {
  import opened Options
  import opened CacheModel
  import opened CacheOps
  import opened CacheFill
  import opened CacheSystem
  import opened CacheRuns
  import opened CacheScene
  import CacheFlush

  /** The cache is empty and the block is on the disk. */
  function Start(): World {
    World(EmptyCache(), map[At(0) := "old"], map[], map[], 8)
  }

  /** What is read first. */
  function OldRead(rewritten: set<nat>): Read {
    Read(PIECE, 0, 1, ["old"], rewritten)
  }

  /** The block is read from the disk. */
  lemma ReadFirst() returns (run: seq<Event>)
    ensures IsRun(Start(), run)
    ensures After(Start(), run) == Start().(readers := map[0 := OldRead({})])
  {
    hide Inv;
    var begin := BeginRead(0, PIECE, 0, 1);
    Extend(Start(), [], begin);
    assert [] + [begin] == [begin];
    var w := After(Start(), [begin]);
    assert w == Start().(readers := map[0 := Read(PIECE, 0, 1, [], {})]);
    Extend(Start(), [begin], Fetch(0));
    run := [begin, Fetch(0)];
    assert [begin] + [Fetch(0)] == run;
    assert [] + [DiskAt(w, At(0))] == ["old"];
    assert map[0 := Read(PIECE, 0, 1, [], {})][0 := OldRead({})] == map[0 := OldRead({})];
  }

  const WRITTEN := Block(Some("new"), true, false, false, 0, 0, 0, 0)

  /** The run leads to where the block is b, the disk holds contents, and the first read is
      still on its way. */
  ghost predicate LeadsTo(run: seq<Event>, b: Block, jobs: seq<Job>, contents: Bytes, rewritten: set<nat>) {
    && IsRun(Start(), run)
    && var w := After(Start(), run);
      && Holds(w, [b], jobs, false) && w.disk == map[At(0) := contents]
      && w.flushes == map[] && w.readers == map[0 := OldRead(rewritten)]
  }

  /** Before the read is inserted, the block is written. */
  lemma WriteThen() returns (run: seq<Event>)
    ensures LeadsTo(run, WRITTEN, [Job(0, 0)], "old", {})
  {
    hide Inv, IsRun, After, Enabled, Next, Holds, Writing;
    run := ReadFirst();
    var w := After(Start(), run);
    EmptyBegins(w);
    Writes(w, [EMPTY_BLOCK], [], 0, "new", 0);
    var e := Writing(w, 1, 0, "new", 0);
    Extend(Start(), run, e);
    run := run + [e];
    assert [EMPTY_BLOCK][0 := WRITTEN] == [WRITTEN] && [] + [Job(0, 0)] == [Job(0, 0)];
  }

  lemma EmptyBegins(w: World)
    requires w.cache == EmptyCache() && w.size == 8
    ensures Begins(w, [EMPTY_BLOCK], [])
  {
  }

  /** It is flushed. */
  lemma FlushThen() returns (run: seq<Event>)
    ensures LeadsTo(run, WRITTEN.(dirty := false), [], "new", {0})
  {
    hide Inv, IsRun, After, Enabled, Next, Holds, Start, CacheFlush.Chosen, FlushRange, FlushIn, Unfinished;
    run := WriteThen();
    var w := After(Start(), run);
    OneBlockFlush();
    BeginsFlush(w, [WRITTEN], [Job(0, 0)], false, 1);
    Extend(Start(), run, BeginFlush(0, PIECE, 0, 1));
    run := run + [BeginFlush(0, PIECE, 0, 1)];
    WritesOut(After(Start(), run));
    Extend(Start(), run, WriteOut(0));
    run := run + [WriteOut(0)];
    EndsFlush(After(Start(), run), [Flushing(WRITTEN)], [Job(0, 0)], Flush(PIECE, [0], 1, {}));
    TimelyEnd(After(Start(), run));
    Extend(Start(), run, EndFlush(0));
    run := run + [EndFlush(0)];
  }

  lemma TimelyEnd(w: World)
    requires Enabled(w, EndFlush(0)) && w.flushes == map[0 := Flush(PIECE, [0], 1, {})]
    ensures Timely(w, EndFlush(0))
  {
    hide Inv;
  }

  lemma OneBlockFlush()
    ensures CacheFlush.Chosen([WRITTEN], 0, 1) == [0]
    ensures FlushRange([WRITTEN], 0, 1) == [Flushing(WRITTEN)]
    ensures FlushIn([Flushing(WRITTEN)], [0]) == [WRITTEN.(dirty := false)]
    ensures Unfinished([WRITTEN.(dirty := false)], [Job(0, 0)]) == []
  {
    assert [WRITTEN][..0] == [] && [Flushing(WRITTEN)][..0] == [] && [Job(0, 0)][..0] == [];
  }

  lemma WritesOut(w: World)
    requires Holds(w, [Flushing(WRITTEN)], [Job(0, 0)], false) && w.flushes == map[0 := Flush(PIECE, [0], 0, {})]
    requires w.readers == map[0 := OldRead({})] && w.disk == map[At(0) := "old"]
    ensures Enabled(w, WriteOut(0))
    ensures var v := Next(w, WriteOut(0));
      && v == w.(disk := map[At(0) := "new"], flushes := map[0 := Flush(PIECE, [0], 1, {})], readers := map[0 := OldRead({0})])
      && Holds(v, [Flushing(WRITTEN)], [Job(0, 0)], false)
  {
    hide Inv, Holds, Cell, Wrote, Enabled, Next;
    HeldCell(w, [Flushing(WRITTEN)], [Job(0, 0)], false, 0);
    NewOnDisk(w);
    WriteOutIs(w);
    StillHolds(w, Next(w, WriteOut(0)), [Flushing(WRITTEN)], [Job(0, 0)]);
  }

  lemma WriteOutIs(w: World)
    requires w.flushes == map[0 := Flush(PIECE, [0], 0, {})] && Cell(w.cache, At(0)) == Flushing(WRITTEN)
    ensures Enabled(w, WriteOut(0)) && Next(w, WriteOut(0)) == Wrote(w, 0, "new", {})
  {
    hide Cell, Wrote;
  }

  lemma StillHolds(w: World, v: World, bs: seq<Block>, jobs: seq<Job>)
    requires Holds(w, bs, jobs, false) && v.cache == w.cache && v.size == w.size
    ensures Holds(v, bs, jobs, false)
  {
    hide Inv, Record;
  }

  lemma NewOnDisk(w: World)
    requires w.flushes == map[0 := Flush(PIECE, [0], 0, {})]
    requires w.readers == map[0 := OldRead({})] && w.disk == map[At(0) := "old"]
    ensures Wrote(w, 0, "new", {})
      == w.(disk := map[At(0) := "new"], flushes := map[0 := Flush(PIECE, [0], 1, {})], readers := map[0 := OldRead({0})])
  {
    var none: set<nat> := {};
    assert none + {0} == {0} && none + none == none;
    var v := Wrote(w, 0, "new", none);
    assert v.disk == map[At(0) := "new"];
    assert v.readers == map[0 := OldRead({0})];
    assert v.flushes == map[0 := Flush(PIECE, [0], 1, {})];
  }

  /** And its buffer is evicted. */
  lemma EvictThen() returns (run: seq<Event>)
    ensures LeadsTo(run, EMPTY_BLOCK, [], "new", {0})
  {
    hide Inv, IsRun, After, Enabled, Next, Holds, Start;
    run := FlushThen();
    var after := Evicts(After(Start(), run), [WRITTEN.(dirty := false)], [], false, 0);
    Extend(Start(), run, Evict(after));
    run := run + [Evict(after)];
    assert [WRITTEN.(dirty := false)][0 := EMPTY_BLOCK] == [EMPTY_BLOCK];
  }

  /** Inserting the read brings the old contents back: insert_blocks() only looks at what is
      cached, so that it was overtaken is not noticed. */
  lemma OvertakenReadIsSeen() returns (run: seq<Event>)
    ensures IsRun(Start(), run)
    ensures var w, e := After(Start(), run), EndRead(0, false, 0);
      && Good(w) && Enabled(w, e)
      && Stored(run, At(0), "old") == Content(w, At(0)) == "new"
      && Content(Next(w, e), At(0)) == "old"
  {
    hide Inv, IsRun, After, Good, Holds, Enabled, Next, Content, Stored;
    run := EvictThen();
    var w := After(Start(), run);
    InitialIsGood(map[At(0) := "old"], 8);
    RunIsAPlainStore(Start(), run, At(0));
    assert Content(Start(), At(0)) == "old";
    Inserts(w);
  }

  lemma Inserts(w: World)
    requires Holds(w, [EMPTY_BLOCK], [], false) && w.disk == map[At(0) := "new"] && w.readers == map[0 := OldRead({0})]
    ensures var e := EndRead(0, false, 0);
      Enabled(w, e) && Content(w, At(0)) == "new" && Content(Next(w, e), At(0)) == "old"
  {
    hide Inv, InsertBlocks, Holds, Cell, Enabled, Next, Content;
    HeldPiece(w, [EMPTY_BLOCK], [], false);
    HeldCell(w, [EMPTY_BLOCK], [], false, 0);
    ReadFromDisk(w);
    EndReadIs(w);
    ReadComesBack(w.cache);
    ReadFromCache(Next(w, EndRead(0, false, 0)));
  }

  lemma ReadFromDisk(w: World)
    requires Cell(w.cache, At(0)) == EMPTY_BLOCK && w.disk == map[At(0) := "new"]
    ensures Content(w, At(0)) == "new"
  {
    hide Cell;
  }

  lemma ReadFromCache(w: World)
    requires Cell(w.cache, At(0)).buf == Some("old")
    ensures Content(w, At(0)) == "old"
  {
    hide Cell;
  }

  lemma EndReadIs(w: World)
    requires Inv(w.cache) && HasBlock(w.cache, PIECE, 0) && w.readers == map[0 := OldRead({0})]
    ensures Enabled(w, EndRead(0, false, 0))
    ensures Next(w, EndRead(0, false, 0)).cache == InsertBlocks(w.cache, PIECE, 0, ["old"], false, 0)
  {
    hide Inv, InsertBlocks;
  }

  lemma ReadComesBack(s: State)
    requires Inv(s) && HasBlock(s, PIECE, 0) && Cell(s, At(0)) == EMPTY_BLOCK
    ensures Cell(InsertBlocks(s, PIECE, 0, ["old"], false, 0), At(0)).buf == Some("old")
  {
    hide Inv, InsertBlocks, Cell;
    InsertCells(s, OldRead({0}), false, 0, At(0));
  }
}
