/** Hashing a piece while its blocks arrive: kick_hasher() and do_hash() advance one cursor,
    each in a locked region, an unlocked one that feeds the hasher, and a locked one. */
module HashCursor {
  import opened Options
  import opened CacheModel

  /** The part of a hashing operation between its locked regions. fed is how far it came,
      offset the copy of the cursor it advances, locked the blocks it holds references to. */
  datatype Op =
    | Idle
    | Kick(cursor: nat, end: nat, fed: nat, offset: nat)
    | Full(first: nat, locked: set<nat>, fed: nat, offset: nat)

  /** size is the size of the piece in bytes, hash the offset of the cursor, fed the blocks
      that were fed to the hasher behind it, refs the references held for hashing, and
      digests what the hashers that were finished had been fed. */
  datatype Hashing = Hashing(size: nat, hash: Option<nat>, hashing: bool, fed: seq<nat>, op: Op,
                             refs: map<nat, nat>, digests: seq<seq<nat>>)

  function Blocks(size: nat): nat {
    (size + DEFAULT_BLOCK_SIZE - 1) / DEFAULT_BLOCK_SIZE
  }

  /** The offset behind the first n blocks of a piece. */
  function OffsetOf(size: nat, n: nat): nat {
    if n * DEFAULT_BLOCK_SIZE < size then n * DEFAULT_BLOCK_SIZE else size
  }

  function Refs(h: Hashing, i: nat): nat {
    if i in h.refs then h.refs[i] else 0
  }

  /** One more, or one less, reference to each of the blocks. */
  function Take(refs: map<nat, nat>, blocks: set<nat>): map<nat, nat> {
    map i | i in refs.Keys + blocks :: (if i in refs then refs[i] else 0) + (if i in blocks then 1 else 0)
  }

  function Return(refs: map<nat, nat>, blocks: set<nat>): map<nat, nat> {
    map i | i in refs.Keys :: if i in blocks && refs[i] > 0 then refs[i] - 1 else refs[i]
  }

  function Range(lo: nat, hi: nat): (r: set<nat>)
    ensures forall i :: i in r <==> lo <= i < hi
    decreases if lo < hi then hi - lo else 0
  {
    if lo >= hi then {} else {lo} + Range(lo + 1, hi)
  }

  /** How many blocks in a row are cached from block i on. */
  function CachedRun(cached: set<nat>, i: nat, end: nat): (n: nat)
    requires i <= end
    ensures i + n <= end
    ensures forall j :: i <= j < i + n ==> j in cached
    ensures i + n < end ==> i + n !in cached
    decreases end - i
  {
    if i == end || i !in cached then 0 else 1 + CachedRun(cached, i + 1, end)
  }

  datatype Event =
    | Start                             // a new hash for the piece
    | BeginKick(cached: set<nat>)
    | Feed                              // one block goes into the hasher
    | EndKick(hashJobs: bool)
    | BeginFull(cached: set<nat>)
    | EndFull                           // the rest of the piece was hashed
    | FailFull                          // a block could not be read
    | NoMemory                          // no buffer to read into
    | AlreadyDone                       // a job that comes when every block was hashed
    | Drop                              // the piece is evicted or cleared

  /** A piece that is being hashed is left alone by other threads. */
  predicate Enabled(h: Hashing, e: Event) {
    match e
    case Start => h.hash.None? && !h.hashing
    case BeginKick(_) => h.hash.Some? && !h.hashing && h.hash.value < h.size
    case Feed =>
      (match h.op
       case Idle => false
       case Kick(_, end, fed, _) => fed < end
       case Full(_, _, fed, _) => fed < Blocks(h.size))
    case EndKick(_) => h.op.Kick? && h.op.fed == h.op.end
    case BeginFull(_) => !h.hashing && (h.hash.Some? ==> h.hash.value < h.size)
    case EndFull => h.op.Full? && h.op.fed == Blocks(h.size)
    case FailFull => h.op.Full? && h.op.fed < Blocks(h.size)
    case NoMemory => h.op.Full? && h.op.fed < Blocks(h.size)
    case AlreadyDone => h.hash == Some(h.size) && !h.hashing
    case Drop => !h.hashing
  }

  function Next(h: Hashing, e: Event): Hashing
    requires Enabled(h, e)
  {
    match e
    case Start => h.(hash := Some(0), fed := [])
    case BeginKick(cached) =>
      var cursor := h.hash.value / DEFAULT_BLOCK_SIZE;
      var end := if cursor <= Blocks(h.size) then cursor + CachedRun(cached, cursor, Blocks(h.size)) else cursor;
      if end == cursor then h
      else h.(hashing := true, op := Kick(cursor, end, cursor, h.hash.value), refs := Take(h.refs, Range(cursor, end)))
    case Feed => FeedOne(h)
    case EndKick(hashJobs) =>
      var g := h.(hash := Some(h.op.offset), hashing := false, op := Idle,
                  refs := Return(h.refs, Range(h.op.cursor, h.op.end)));
      if h.op.offset == h.size && hashJobs then Finish(g) else g
    case BeginFull(cached) =>
      var g := if h.hash.None? then h.(hash := Some(0), fed := []) else h;
      var first := g.hash.value / DEFAULT_BLOCK_SIZE;
      var locked := set i | i in cached && first <= i < Blocks(h.size);
      g.(hashing := true, op := Full(first, locked, first, g.hash.value), refs := Take(h.refs, locked))
    case EndFull => Finish(Release(h))
    case FailFull => Release(h)
    case NoMemory => Release(h).(hash := None, fed := [])
    case AlreadyDone => Finish(h)
    case Drop => h.(hash := None, fed := [])
  }

  /** The hasher gets the next block, and the local offset moves by its size. */
  function FeedOne(h: Hashing): Hashing
    requires h.op != Idle
  {
    var size := if DEFAULT_BLOCK_SIZE < h.size - h.op.offset then DEFAULT_BLOCK_SIZE else h.size - h.op.offset;
    var offset := if h.op.offset + size < 0 then 0 else h.op.offset + size;
    h.(fed := h.fed + [h.op.fed],
       op := match h.op
         case Kick(cursor, end, fed, _) => Kick(cursor, end, fed + 1, offset)
         case Full(first, locked, fed, _) => Full(first, locked, fed + 1, offset))
  }

  /** The locked region behind do_hash(). */
  function Release(h: Hashing): Hashing
    requires h.op.Full?
  {
    h.(hash := Some(h.op.offset), hashing := false, op := Idle, refs := Return(h.refs, h.op.locked))
  }

  /** The digest is taken and the hash is given up. */
  function Finish(h: Hashing): Hashing {
    h.(digests := h.digests + [h.fed], hash := None, fed := [])
  }

  // ----- the invariant -----

  /** 0, 1, 2, ... */
  predicate InOrder(fed: seq<nat>) {
    forall i :: 0 <= i < |fed| ==> fed[i] == i
  }

  /** The blocks an operation holds. */
  function Holds(op: Op): set<nat> {
    match op
    case Idle => {}
    case Kick(cursor, end, _, _) => Range(cursor, end)
    case Full(_, locked, _, _) => locked
  }

  predicate CursorAt(h: Hashing, n: nat) {
    h.hash == Some(OffsetOf(h.size, n)) && n <= Blocks(h.size)
  }

  ghost predicate OpGood(h: Hashing) {
    match h.op
    case Idle => h.hash.Some? ==> CursorAt(h, |h.fed|)
    case Kick(cursor, end, fed, offset) =>
      && CursorAt(h, cursor) && cursor <= fed == |h.fed| && fed <= end <= Blocks(h.size)
      && offset == OffsetOf(h.size, fed)
    case Full(first, locked, fed, offset) =>
      && CursorAt(h, first) && first <= fed == |h.fed| && fed <= Blocks(h.size)
      && offset == OffsetOf(h.size, fed)
  }

  /** One operation at a time; the blocks were fed in order; references are held exactly by
      the operation in progress; every digest is that of the whole piece. */
  ghost predicate Good(h: Hashing) {
    && h.size > 0
    && (h.hashing <==> h.op != Idle)
    && InOrder(h.fed) && OpGood(h)
    && (forall i :: Refs(h, i) == if i in Holds(h.op) then 1 else 0)
    && (forall d :: d in h.digests ==> InOrder(d) && |d| == Blocks(h.size))
  }

  /** The cursor is a multiple of the block size or the size of the piece. */
  lemma CursorIsAligned(h: Hashing)
    requires Good(h) && h.hash.Some?
    ensures h.hash.value % DEFAULT_BLOCK_SIZE == 0 || h.hash.value == h.size
    ensures h.hash.value <= h.size
  {
  }

  lemma OffsetSteps(size: nat, n: nat)
    requires n < Blocks(size)
    ensures OffsetOf(size, n) == n * DEFAULT_BLOCK_SIZE < size
    ensures OffsetOf(size, n) / DEFAULT_BLOCK_SIZE == n
    ensures OffsetOf(size, n + 1)
      == OffsetOf(size, n) + if DEFAULT_BLOCK_SIZE < size - OffsetOf(size, n) then DEFAULT_BLOCK_SIZE else size - OffsetOf(size, n)
  {
  }

  /** The cursor is at the end of the piece exactly when every block was fed. */
  lemma OffsetEnds(size: nat, n: nat)
    requires n <= Blocks(size) && size > 0
    ensures OffsetOf(size, n) == size <==> n == Blocks(size)
  {
  }

  lemma TakeAddsOne(refs: map<nat, nat>, blocks: set<nat>, i: nat)
    ensures (if i in Take(refs, blocks) then Take(refs, blocks)[i] else 0)
      == (if i in refs then refs[i] else 0) + (if i in blocks then 1 else 0)
  {
  }

  lemma FeedKeepsGood(h: Hashing)
    requires Good(h) && Enabled(h, Feed)
    ensures Good(Next(h, Feed))
  {
    OffsetSteps(h.size, |h.fed|);
    var g := Next(h, Feed);
    forall i
      ensures Refs(g, i) == if i in Holds(g.op) then 1 else 0
    {
      assert Refs(h, i) == if i in Holds(h.op) then 1 else 0;
    }
  }

  lemma BeginKickKeepsGood(h: Hashing, cached: set<nat>)
    requires Good(h) && Enabled(h, BeginKick(cached))
    ensures Good(Next(h, BeginKick(cached)))
  {
    var g := Next(h, BeginKick(cached));
    OffsetEnds(h.size, |h.fed|);
    OffsetSteps(h.size, |h.fed|);
    if g != h {
      forall i
        ensures Refs(g, i) == if i in Holds(g.op) then 1 else 0
      {
        TakeAddsOne(h.refs, Range(g.op.cursor, g.op.end), i);
        assert Refs(h, i) == 0;
      }
    }
  }

  lemma BeginFullKeepsGood(h: Hashing, cached: set<nat>)
    requires Good(h) && Enabled(h, BeginFull(cached))
    ensures Good(Next(h, BeginFull(cached)))
  {
    var g := Next(h, BeginFull(cached));
    if h.hash.Some? {
      OffsetEnds(h.size, |h.fed|);
      OffsetSteps(h.size, |h.fed|);
    }
    forall i
      ensures Refs(g, i) == if i in Holds(g.op) then 1 else 0
    {
      TakeAddsOne(h.refs, g.op.locked, i);
      assert Refs(h, i) == 0;
    }
  }

  lemma ReturnsAll(h: Hashing)
    requires Good(h)
    ensures forall i :: i in Return(h.refs, Holds(h.op)) ==> Return(h.refs, Holds(h.op))[i] == 0
  {
    forall i | i in Return(h.refs, Holds(h.op))
      ensures Return(h.refs, Holds(h.op))[i] == 0
    {
      assert Refs(h, i) == if i in Holds(h.op) then 1 else 0;
    }
  }

  lemma EndKeepsGood(h: Hashing, e: Event)
    requires Good(h) && Enabled(h, e)
    requires e.EndKick? || e.EndFull? || e.FailFull? || e.NoMemory?
    ensures Good(Next(h, e)) && Next(h, e).op == Idle
    ensures forall i :: Refs(Next(h, e), i) == 0
  {
    ReturnsAll(h);
    OffsetEnds(h.size, |h.fed|);
    var g := Next(h, e);
    assert g.refs == Return(h.refs, Holds(h.op)) && g.op == Idle;
    forall i
      ensures Refs(g, i) == 0
    {
    }
  }

  lemma StepKeepsGood(h: Hashing, e: Event)
    requires Good(h) && Enabled(h, e)
    ensures Good(Next(h, e)) && Next(h, e).size == h.size
  {
    hide Good;
    match e
    case Start => StartKeepsGood(h);
    case BeginKick(cached) => BeginKickKeepsGood(h, cached);
    case Feed => FeedKeepsGood(h);
    case BeginFull(cached) => BeginFullKeepsGood(h, cached);
    case EndKick(_) => EndKeepsGood(h, e);
    case EndFull => EndKeepsGood(h, e);
    case FailFull => EndKeepsGood(h, e);
    case NoMemory => EndKeepsGood(h, e);
    case AlreadyDone => IdleKeepsGood(h, e);
    case Drop => IdleKeepsGood(h, e);
  }

  /** A hash that is complete is taken, or one that is not being worked on is dropped. */
  lemma IdleKeepsGood(h: Hashing, e: Event)
    requires Good(h) && Enabled(h, e) && (e.AlreadyDone? || e.Drop?)
    ensures Good(Next(h, e))
  {
    if h.hash.Some? {
      OffsetEnds(h.size, |h.fed|);
    }
    var g := Next(h, e);
    forall i
      ensures Refs(g, i) == if i in Holds(g.op) then 1 else 0
    {
      assert Refs(h, i) == if i in Holds(h.op) then 1 else 0;
    }
  }

  /** Unless an operation is in progress, a piece that has a hash can be hashed further or
      its digest be taken: the cursor never gets stuck. */
  lemma NeverStuck(h: Hashing, cached: set<nat>)
    requires Good(h) && !h.hashing
    ensures Enabled(h, BeginFull(cached)) <==> h.hash != Some(h.size)
    ensures Enabled(h, AlreadyDone) <==> h.hash == Some(h.size)
    ensures h.hash == Some(h.size) ==> Next(h, AlreadyDone).digests == h.digests + [h.fed] && |h.fed| == Blocks(h.size)
  {
    if h.hash.Some? {
      CursorIsAligned(h);
      OffsetEnds(h.size, |h.fed|);
    }
  }

  lemma StartKeepsGood(h: Hashing)
    requires Good(h) && Enabled(h, Start)
    ensures Good(Next(h, Start))
  {
  }

  predicate IsRun(h: Hashing, run: seq<Event>)
    decreases |run|
  {
    run == [] || (Enabled(h, run[0]) && IsRun(Next(h, run[0]), run[1..]))
  }

  function After(h: Hashing, run: seq<Event>): Hashing
    requires IsRun(h, run)
    decreases |run|
  {
    if run == [] then h else After(Next(h, run[0]), run[1..])
  }

  /** Over every run, in whatever order blocks arrive and operations interleave: every digest
      was taken of the blocks 0, 1, 2, ... of the whole piece, each once and in order; and
      whenever no operation is in progress no reference is held for hashing. */
  lemma {:induction false} RunHashesInOrder(h: Hashing, run: seq<Event>)
    requires Good(h) && IsRun(h, run)
    ensures var g := After(h, run);
      && Good(g) && g.size == h.size
      && InOrder(g.fed)
      && (forall d :: d in g.digests ==> InOrder(d) && |d| == Blocks(g.size))
      && (g.op == Idle ==> forall i :: Refs(g, i) == 0)
    decreases |run|
  {
    if run != [] {
      hide Good, Next, Enabled;
      StepKeepsGood(h, run[0]);
      RunHashesInOrder(Next(h, run[0]), run[1..]);
    } else {
      OpIsIdle(h);
    }
  }

  lemma OpIsIdle(h: Hashing)
    requires Good(h)
    ensures h.op == Idle ==> forall i :: Refs(h, i) == 0
  {
    if h.op == Idle {
      forall i
        ensures Refs(h, i) == 0
      {
        assert Refs(h, i) == if i in Holds(h.op) then 1 else 0;
      }
    }
  }

  lemma InitialIsGood(size: nat)
    requires size > 0
    ensures Good(Hashing(size, None, false, [], Idle, map[], []))
  {
  }

  /** Every block that is hashed from its buffer is referenced while it is. */
  lemma FedBlockIsHeld(h: Hashing)
    requires Good(h) && Enabled(h, Feed)
    ensures h.op.Kick? ==> Refs(h, h.op.fed) == 1
    ensures h.op.Full? && h.op.fed in h.op.locked ==> Refs(h, h.op.fed) == 1
  {
    assert Refs(h, h.op.fed) == if h.op.fed in Holds(h.op) then 1 else 0;
  }
}
