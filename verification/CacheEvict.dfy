/** try_evict_blocks(): what it may take out of the cache, how much, and when it has looked
    everywhere. */
module CacheEvict {
  import opened Options
  import opened CacheModel
  import opened CacheOps
  import BlockCache

  // ----- what an eviction may do -----

  /** Some of the blocks that are clean and not in use lost their buffer. */
  ghost predicate Thinner(bs: seq<Block>, cs: seq<Block>) {
    && |cs| == |bs|
    && forall i :: 0 <= i < |bs| ==> ThinnerAt(bs[i], cs[i])
  }

  predicate ThinnerAt(b: Block, c: Block) {
    c == b || (Drops(DropClean, b) && c == Emptied(b))
  }

  /** The ghost list of one of the two read lists. */
  predicate IsGhostOf(g: nat, q: nat) {
    (q == READ_LRU1 && g == READ_LRU1_GHOST) || (q == READ_LRU2 && g == READ_LRU2_GHOST)
  }

  /** A piece that is still there: nothing but its number of blocks and its list changed. */
  ghost predicate Kept(p: Piece, q: Piece) {
    && Thinner(p.blocks, q.blocks)
    && q == p.(blocks := q.blocks, numBlocks := q.numBlocks, cacheState := q.cacheState)
    && (q.cacheState == p.cacheState || IsGhostOf(q.cacheState, p.cacheState))
  }

  /** A piece that may be given up: nothing of it is in use or still to be written. */
  ghost predicate Expendable(p: Piece) {
    OkToEvict(p, false) && forall i :: 0 <= i < |p.blocks| && p.blocks[i].buf.Some? ==> Drops(DropClean, p.blocks[i])
  }

  ghost predicate Evicted(s: State, t: State) {
    && t.lastOp == s.lastOp
    && (forall k :: k in t.pieces ==> k in s.pieces && Kept(s.pieces[k], t.pieces[k]))
    && (forall k :: k in s.pieces && k !in t.pieces ==> Expendable(s.pieces[k]))
  }

  /** A piece outside of the ghost lists that is left alone. */
  ghost predicate Spared(s: State, t: State, k: Key) {
    k in s.pieces && !IsGhost(s.pieces[k].cacheState) ==> k in t.pieces && t.pieces[k] == s.pieces[k]
  }

  lemma ThinnerTwice(a: seq<Block>, b: seq<Block>, c: seq<Block>)
    requires Thinner(a, b) && Thinner(b, c)
    ensures Thinner(a, c)
  {
    forall i | 0 <= i < |a|
      ensures ThinnerAt(a[i], c[i])
    {
      assert ThinnerAt(a[i], b[i]) && ThinnerAt(b[i], c[i]);
    }
  }

  lemma KeptTwice(p: Piece, q: Piece, r: Piece)
    requires Kept(p, q) && Kept(q, r)
    ensures Kept(p, r)
  {
    ThinnerTwice(p.blocks, q.blocks, r.blocks);
  }

  lemma KeptExpendable(p: Piece, q: Piece)
    requires Kept(p, q) && Expendable(q)
    ensures Expendable(p)
  {
    forall i | 0 <= i < |p.blocks| && p.blocks[i].buf.Some?
      ensures Drops(DropClean, p.blocks[i])
    {
      assert ThinnerAt(p.blocks[i], q.blocks[i]);
    }
  }

  lemma EvictedTwice(s: State, t: State, u: State)
    requires Evicted(s, t) && Evicted(t, u)
    ensures Evicted(s, u)
  {
    hide Kept, Expendable;
    forall k | k in u.pieces
      ensures k in s.pieces && Kept(s.pieces[k], u.pieces[k])
    {
      KeptTwice(s.pieces[k], t.pieces[k], u.pieces[k]);
    }
    forall k | k in s.pieces && k !in u.pieces
      ensures Expendable(s.pieces[k])
    {
      if k in t.pieces {
        KeptExpendable(s.pieces[k], t.pieces[k]);
      }
    }
  }

  lemma SameIsKept(p: Piece)
    ensures Kept(p, p)
  {
  }

  lemma NothingEvicted(s: State)
    ensures Evicted(s, s)
  {
    forall k | k in s.pieces
      ensures Kept(s.pieces[k], s.pieces[k])
    {
      SameIsKept(s.pieces[k]);
    }
  }

  // ----- one piece -----

  /** Everything but piece k, and pieces of the ghost lists, is as it was. */
  ghost predicate OnlyTouches(s: State, t: State, k: Key) {
    forall x :: x != k ==> Spared(s, t, x)
  }

  lemma PutEvicts(s: State, k: Key, q: Piece)
    requires k in s.pieces && Kept(s.pieces[k], q)
    ensures Evicted(s, Put(s, k, q)) && OnlyTouches(s, Put(s, k, q), k)
  {
    hide Kept;
    forall x | x in s.pieces
      ensures Kept(s.pieces[x], Put(s, k, q).pieces[x])
    {
      if x != k {
        SameIsKept(s.pieces[x]);
      }
    }
  }

  lemma RemoveEvicts(s: State, k: Key)
    requires Listed(s) && k in s.pieces && Expendable(s.pieces[k])
    ensures Evicted(s, Remove(s, k)) && OnlyTouches(s, Remove(s, k), k)
  {
    hide Kept, Expendable;
    forall x | x in Remove(s, k).pieces
      ensures Kept(s.pieces[x], Remove(s, k).pieces[x])
    {
      SameIsKept(s.pieces[x]);
    }
  }

  lemma NoBuffers(p: Piece)
    requires PieceOk(p) && p.numBlocks == 0
    ensures forall i :: 0 <= i < |p.blocks| ==> p.blocks[i].buf.None?
  {
    SumIsZero(p.blocks, Cached);
    forall i | 0 <= i < |p.blocks|
      ensures p.blocks[i].buf.None?
    {
      assert Weigh(p.blocks[i], Cached) == 0;
    }
  }

  lemma EmptyIsExpendable(p: Piece)
    requires PieceOk(p) && p.numBlocks == 0 && OkToEvict(p, false)
    ensures Expendable(p)
  {
    NoBuffers(p);
  }

  /** No block of the piece could be evicted, and the piece itself could not be given up. */
  ghost predicate NothingToEvict(p: Piece) {
    && (forall i :: 0 <= i < |p.blocks| ==> !Drops(DropClean, p.blocks[i]))
    && (Idle(p) ==> IsGhost(p.cacheState))
  }

  /** A piece without blocks that is not in use is given up. */
  predicate Idle(p: Piece) {
    OkToEvict(p, false) && p.numBlocks == 0
  }

  lemma TouchesTwice(s: State, t: State, u: State, k: Key)
    requires OnlyTouches(s, t, k) && OnlyTouches(t, u, k)
    ensures OnlyTouches(s, u, k)
  {
    forall x | x != k
      ensures Spared(s, u, x)
    {
      assert Spared(s, t, x) && Spared(t, u, x);
    }
  }

  lemma GhostEvicts(s: State, k: Key, size: nat)
    requires Inv(s) && k in s.pieces && size > 0
    requires s.pieces[k].numBlocks == 0 && OkToEvict(s.pieces[k], false)
    ensures Evicted(s, MoveToGhost(s, k, size)) && OnlyTouches(s, MoveToGhost(s, k, size), k)
  {
    hide Kept, Expendable, PieceOk, Listed;
    var p := s.pieces[k];
    assert PieceOk(p);
    EmptyIsExpendable(p);
    if p.cacheState == VOLATILE_READ_LRU {
      RemoveEvicts(s, k);
    } else if p.cacheState == READ_LRU1 || p.cacheState == READ_LRU2 {
      TrimKeeps(s, p.cacheState + 1, size, k);
      TrimEvicts(s, p.cacheState + 1, size);
      MoveEvicts(Trim(s, p.cacheState + 1, size), k, p.cacheState + 1);
      EvictedTwice(s, Trim(s, p.cacheState + 1, size), MoveToGhost(s, k, size));
      TouchesTwice(s, Trim(s, p.cacheState + 1, size), MoveToGhost(s, k, size), k);
    } else {
      NothingEvicted(s);
    }
  }

  lemma MoveEvicts(s: State, k: Key, g: nat)
    requires Listed(s) && k in s.pieces && IsGhostOf(g, s.pieces[k].cacheState)
    ensures Evicted(s, Move(s, k, s.pieces[k], g)) && OnlyTouches(s, Move(s, k, s.pieces[k], g), k)
  {
    hide Kept;
    var q := s.pieces[k].(cacheState := g);
    MovedIsKept(s.pieces[k], g);
    PutEvicts(s, k, q);
  }

  lemma MovedIsKept(p: Piece, g: nat)
    requires IsGhostOf(g, p.cacheState)
    ensures Kept(p, p.(cacheState := g))
  {
  }

  lemma TrimEvicts(s: State, g: nat, size: nat)
    requires Inv(s) && IsGhost(g) && size > 0
    ensures Evicted(s, Trim(s, g, size))
    ensures forall x :: Spared(s, Trim(s, g, size), x)
  {
    hide Kept, Expendable, Listed;
    TrimKeepsInv(s, g, size);
    var t := Trim(s, g, size);
    forall x | x in t.pieces
      ensures Kept(s.pieces[x], t.pieces[x])
    {
      SameIsKept(s.pieces[x]);
    }
    forall x | x in s.pieces && x !in t.pieces
      ensures Expendable(s.pieces[x])
    {
      EmptyIsExpendable(s.pieces[x]);
    }
  }

  /** If every cached block counts as pinned, or as dirty, none can be evicted. */
  lemma AllCounted(bs: seq<Block>, m: Measure)
    requires m == Pinned || m == Dirty
    requires Sum(bs, Cached) <= Sum(bs, m)
    ensures forall i :: 0 <= i < |bs| && bs[i].buf.Some? ==> Weigh(bs[i], m) == 1
  {
    if bs != [] {
      var n := |bs| - 1;
      AtMostCached(bs[..n], m);
      AllCounted(bs[..n], m);
      forall i | 0 <= i < |bs| && bs[i].buf.Some?
        ensures Weigh(bs[i], m) == 1
      {
        assert i < n ==> bs[..n][i] == bs[i];
      }
    }
  }

  lemma {:induction false} AtMostCached(bs: seq<Block>, m: Measure)
    requires m == Pinned || m == Dirty
    ensures Sum(bs, m) <= Sum(bs, Cached)
  {
    if bs != [] {
      AtMostCached(bs[..|bs| - 1], m);
    }
  }

  // ----- the loops -----

  /** The loop over the blocks of a piece, up to end: as many clean blocks that are not in
      use are freed as are wanted. */
  method EvictBlocks(p0: Piece, end: nat, num: nat) returns (p: Piece, left: nat, removed: nat)
    requires PieceOk(p0) && end <= |p0.blocks|
    ensures Counted(p) && BlocksOk(p.blocks) && |p.blocks| == |p0.blocks|
    ensures Kept(p0, p) && p.cacheState == p0.cacheState
    ensures removed + left == num
    ensures Sum(p.blocks, Clean) + removed == Sum(p0.blocks, Clean)
    ensures Sum(p.blocks, Dirty) == Sum(p0.blocks, Dirty) && Sum(p.blocks, Pinned) == Sum(p0.blocks, Pinned)
    ensures left > 0 ==> forall i :: 0 <= i < end ==> !Drops(DropClean, p.blocks[i])
    ensures forall i :: end <= i < |p0.blocks| ==> p.blocks[i] == p0.blocks[i]
  {
    hide Sum, Thinner;
    ThinnerRefl(p0.blocks);
    p, left, removed := p0, num, 0;
    var j := 0;
    while j < end && left > 0
      invariant 0 <= j <= end && |p.blocks| == |p0.blocks|
      invariant Counted(p) && BlocksOk(p.blocks) && Kept(p0, p) && p.cacheState == p0.cacheState
      invariant removed + left == num
      invariant Sum(p.blocks, Clean) + removed == Sum(p0.blocks, Clean)
      invariant Sum(p.blocks, Dirty) == Sum(p0.blocks, Dirty) && Sum(p.blocks, Pinned) == Sum(p0.blocks, Pinned)
      invariant forall i :: 0 <= i < j ==> !Drops(DropClean, p.blocks[i])
      invariant forall i :: j <= i < |p0.blocks| ==> p.blocks[i] == p0.blocks[i]
    {
      var b := p.blocks[j];
      if !(b.buf.None? || b.refcount > 0 || b.dirty || b.pending) {
        BlockCache.CountStep(p.blocks, j, Emptied(b));
        ThinnerStep(p0.blocks, p.blocks, j);
        p := p.(blocks := p.blocks[j := Emptied(b)], numBlocks := p.numBlocks - 1);
        removed, left := removed + 1, left - 1;
      }
      j := j + 1;
    }
  }

  lemma ThinnerRefl(bs: seq<Block>)
    ensures Thinner(bs, bs)
  {
  }

  lemma ThinnerStep(bs: seq<Block>, cs: seq<Block>, j: nat)
    requires Thinner(bs, cs) && j < |bs| && Drops(DropClean, cs[j])
    ensures Thinner(bs, cs[j := Emptied(cs[j])])
  {
    assert ThinnerAt(bs[j], cs[j]);
  }

  /** Writes back the record of a piece of which blocks were evicted. */
  method StoreEvicted(c: BlockCache.Cache, k: Key, p: Piece, removed: nat)
    requires c.Valid() && k in c.pieces && Kept(c.pieces[k], p) && p.cacheState == c.pieces[k].cacheState
    requires Counted(p) && BlocksOk(p.blocks)
    requires Sum(p.blocks, Clean) + removed == Sum(c.pieces[k].blocks, Clean)
    requires Sum(p.blocks, Dirty) == Sum(c.pieces[k].blocks, Dirty)
    requires Sum(p.blocks, Pinned) == Sum(c.pieces[k].blocks, Pinned)
    modifies c`pieces, c`readCacheSize
    ensures c.Valid() && c.View() == Put(old(c.View()), k, p)
    ensures c.readCacheSize == old(c.readCacheSize) - removed
    ensures Evicted(old(c.View()), c.View()) && OnlyTouches(old(c.View()), c.View(), k)
  {
    hide Sum, Total, Thinner;
    ghost var s := c.View();
    StillOk(c.pieces[k], p);
    PutEvicts(s, k, p);
    c.readCacheSize := c.readCacheSize - removed;
    c.Store(k, p, s);
  }

  lemma StillOk(p: Piece, q: Piece)
    requires PieceOk(p) && Kept(p, q) && q.cacheState == p.cacheState && Counted(q) && BlocksOk(q.blocks)
    ensures PieceOk(q)
  {
    hide Sum;
    if p.numBlocks == 0 {
      SumIsZero(p.blocks, Cached);
      forall i | 0 <= i < |q.blocks|
        ensures Weigh(q.blocks[i], Cached) == 0
      {
        assert Weigh(p.blocks[i], Cached) == 0 && ThinnerAt(p.blocks[i], q.blocks[i]);
      }
      ZeroSum(q.blocks, Cached);
    }
  }

  method RetireIdle(c: BlockCache.Cache, k: Key)
    requires c.Valid() && k in c.pieces && Idle(c.pieces[k])
    requires c.pieces[k].cacheState in {VOLATILE_READ_LRU, READ_LRU1, READ_LRU2}
    modifies c`pieces, c`lru
    ensures c.Valid() && Evicted(old(c.View()), c.View()) && OnlyTouches(old(c.View()), c.View(), k)
    ensures k in c.pieces ==> NothingToEvict(c.pieces[k]) && IsGhost(c.pieces[k].cacheState)
  {
    hide Sum, Total, Expendable, Kept, Listed, Evicted, Thinner;
    GhostEvicts(c.View(), k, c.ghostSize);
    c.MoveToGhost(k);
    if k in c.pieces {
      EmptyHasNothing(c, k, old(c.View()));
    }
  }

  lemma EmptyHasNothing(c: BlockCache.Cache, k: Key, s: State)
    requires c.Valid() && k in c.pieces && k in s.pieces && Inv(s) && Idle(s.pieces[k])
    requires Evicted(s, c.View()) && IsGhost(c.pieces[k].cacheState)
    ensures NothingToEvict(c.pieces[k])
  {
    hide Sum, Total, Listed;
    var p, q := s.pieces[k], c.pieces[k];
    NoBuffers(p);
    forall i | 0 <= i < |q.blocks|
      ensures !Drops(DropClean, q.blocks[i])
    {
      assert ThinnerAt(p.blocks[i], q.blocks[i]);
    }
  }

  // ----- one piece of a list -----

  /** What is known after a piece was handled: if more blocks are wanted, it has none left
      to give. */
  ghost predicate Handled(c: BlockCache.Cache, s: State, k: Key, num: nat, left: nat, readSize: int)
    reads c
  {
    && c.Valid()
    && Evicted(s, c.View()) && OnlyTouches(s, c.View(), k)
    && left <= num && c.readCacheSize == readSize - (num - left)
  }

  /** A piece of one of the read lists. */
  method EvictReadPiece(c: BlockCache.Cache, k: Key, num: nat) returns (left: nat)
    requires c.Valid() && k in c.pieces && num > 0
    requires c.pieces[k].cacheState in {VOLATILE_READ_LRU, READ_LRU1, READ_LRU2}
    modifies c`pieces, c`lru, c`readCacheSize
    ensures Handled(c, old(c.View()), k, num, left, old(c.readCacheSize))
    ensures left > 0 && k in c.pieces ==> NothingToEvict(c.pieces[k])
  {
    hide Sum, Total, Kept, Expendable, Thinner, Listed;
    ghost var s := c.View();
    var p := c.pieces[k];
    left := num;
    if OkToEvict(p, false) && p.numBlocks == 0 {
      RetireIdle(c, k);
      return;
    }
    if p.numBlocks <= p.pinned {
      NothingEvicted(s);
      AllPinned(p);
      return;
    }
    var removed;
    p, left, removed := EvictBlocks(p, |p.blocks|, num);
    StoreEvicted(c, k, p, removed);
    if OkToEvict(p, false) && p.numBlocks == 0 {
      ghost var t := c.View();
      RetireIdle(c, k);
      EvictedTwice(s, t, c.View());
      TouchesTwice(s, t, c.View(), k);
    }
  }

  lemma AllPinned(p: Piece)
    requires PieceOk(p) && p.numBlocks <= p.pinned && !Idle(p)
    ensures NothingToEvict(p)
  {
    hide Sum;
    AllCounted(p.blocks, Pinned);
  }

  lemma AllDirty(p: Piece)
    requires PieceOk(p) && p.numDirty == p.numBlocks && !Idle(p)
    ensures NothingToEvict(p)
  {
    hide Sum;
    AllCounted(p.blocks, Dirty);
  }

  /** The hash cursor of a piece is inside of the piece. */
  predicate CursorOk(p: Piece) {
    p.hash.Some? ==> p.hash.value / DEFAULT_BLOCK_SIZE <= |p.blocks|
  }

  /** The first pass over the write list leaves the blocks alone that were not hashed yet,
      and takes all it can of the others as long as more are wanted. */
  ghost predicate HashedOnly(p: Piece, q: Piece, left: nat)
    requires CursorOk(p)
  {
    p.hash.Some? ==>
      && |q.blocks| == |p.blocks|
      && (forall i :: p.hash.value / DEFAULT_BLOCK_SIZE <= i < |p.blocks| ==> q.blocks[i] == p.blocks[i])
      && (left > 0 ==> forall i :: 0 <= i < p.hash.value / DEFAULT_BLOCK_SIZE ==> !Drops(DropClean, q.blocks[i]))
  }

  /** A piece of the write list. */
  method EvictWritePiece(c: BlockCache.Cache, k: Key, num: nat, pass: nat) returns (left: nat)
    requires c.Valid() && k in c.pieces && num > 0
    requires c.pieces[k].cacheState == WRITE_LRU && CursorOk(c.pieces[k])
    modifies c`pieces, c`lru, c`readCacheSize
    ensures Handled(c, old(c.View()), k, num, left, old(c.readCacheSize))
    ensures pass > 0 && left > 0 && k in c.pieces ==> NothingToEvict(c.pieces[k])
    ensures pass == 0 && k in c.pieces ==> HashedOnly(old(c.pieces)[k], c.pieces[k], left)
  {
    hide Sum, Total, Kept, Expendable, Thinner, Listed;
    ghost var s := c.View();
    var p := c.pieces[k];
    left := num;
    if OkToEvict(p, false) && p.numBlocks == 0 {
      EraseIdle(c, k);
      return;
    }
    if p.numDirty == p.numBlocks {
      NothingEvicted(s);
      AllDirty(p);
      return;
    }
    var end := |p.blocks|;
    if pass == 0 && p.hash.Some? {
      end := p.hash.value / DEFAULT_BLOCK_SIZE;
    }
    var removed;
    p, left, removed := EvictBlocks(p, end, num);
    StoreEvicted(c, k, p, removed);
    if OkToEvict(p, false) && p.numBlocks == 0 {
      ghost var t := c.View();
      EraseIdle(c, k);
      EvictedTwice(s, t, c.View());
      TouchesTwice(s, t, c.View(), k);
    }
  }

  method EraseIdle(c: BlockCache.Cache, k: Key)
    requires c.Valid() && k in c.pieces && Idle(c.pieces[k])
    modifies c`pieces, c`lru
    ensures c.Valid() && Evicted(old(c.View()), c.View()) && OnlyTouches(old(c.View()), c.View(), k)
    ensures k !in c.pieces
  {
    hide Sum, Total, Expendable, Kept, Evicted, Thinner;
    EmptyIsExpendable(c.pieces[k]);
    RemoveEvicts(c.View(), k);
    c.ErasePiece(k);
  }

  // ----- one list -----

  /** The pieces of the other lists, except the ghosts, and the ignored piece are left alone. */
  ghost predicate OnlyList(s: State, t: State, q: nat, ignore: Option<Key>) {
    forall x :: (x in s.pieces && s.pieces[x].cacheState != q) || ignore == Some(x) ==> Spared(s, t, x)
  }

  /** Everything in list q was looked at, and nothing more can be taken from it. */
  ghost predicate Exhausted(s: State, q: nat, ignore: Option<Key>) {
    forall x :: x in s.pieces && s.pieces[x].cacheState == q && ignore != Some(x) ==> NothingToEvict(s.pieces[x])
  }

  /** The part of a list that was looked at so far. */
  ghost predicate Seen(t: State, list: seq<Key>, n: nat, q: nat, ignore: Option<Key>)
    requires n <= |list|
  {
    forall j :: 0 <= j < n && ignore != Some(list[j]) ==> SeenAt(t, list[j], q)
  }

  ghost predicate SeenAt(t: State, x: Key, q: nat) {
    x in t.pieces && t.pieces[x].cacheState == q ==> NothingToEvict(t.pieces[x])
  }

  /** And the part that was not: its pieces are as they were. */
  ghost predicate Unseen(s: State, t: State, list: seq<Key>, n: nat, q: nat)
    requires n <= |list|
  {
    forall j :: n <= j < |list| ==> UnseenAt(s, t, list[j], q)
  }

  ghost predicate UnseenAt(s: State, t: State, x: Key, q: nat) {
    x in s.pieces && x in t.pieces && t.pieces[x] == s.pieces[x] && t.pieces[x].cacheState == q
  }

  lemma SeenNext(s: State, t: State, u: State, list: seq<Key>, n: nat, q: nat, ignore: Option<Key>)
    requires n < |list| && NoDuplicates(list) && !IsGhost(q)
    requires Unseen(s, t, list, n, q) && OnlyTouches(t, u, list[n]) && Evicted(t, u)
    ensures Unseen(s, u, list, n + 1, q)
    ensures Seen(t, list, n, q, ignore) ==> Seen(u, list, n, q, ignore)
    ensures Seen(t, list, n, q, ignore) && SeenAt(u, list[n], q) ==> Seen(u, list, n + 1, q, ignore)
  {
    forall j | n + 1 <= j < |list|
      ensures UnseenAt(s, u, list[j], q)
    {
      assert UnseenAt(s, t, list[j], q) && list[j] != list[n] && Spared(t, u, list[j]);
    }
    if Seen(t, list, n, q, ignore) {
      forall j | 0 <= j < n && ignore != Some(list[j])
        ensures SeenAt(u, list[j], q)
      {
        assert SeenAt(t, list[j], q) && list[j] != list[n] && Spared(t, u, list[j]);
        StillSeen(t, u, list[j], q);
      }
    }
  }

  lemma StillSeen(t: State, u: State, x: Key, q: nat)
    requires SeenAt(t, x, q) && Spared(t, u, x) && Evicted(t, u) && !IsGhost(q)
    ensures SeenAt(u, x, q)
  {
    hide NothingToEvict, Thinner, Expendable;
    if x in u.pieces && u.pieces[x].cacheState == q {
      assert Kept(t.pieces[x], u.pieces[x]);
    }
  }

  lemma SkipIgnored(s: State, t: State, list: seq<Key>, n: nat, q: nat, ignore: Option<Key>)
    requires n < |list| && ignore == Some(list[n])
    ensures Unseen(s, t, list, n, q) ==> Unseen(s, t, list, n + 1, q)
    ensures Seen(t, list, n, q, ignore) ==> Seen(t, list, n + 1, q, ignore)
  {
  }

  lemma OnlyListNext(s: State, t: State, u: State, k: Key, q: nat, ignore: Option<Key>)
    requires OnlyList(s, t, q, ignore) && OnlyTouches(t, u, k) && Evicted(s, t)
    requires k in s.pieces && s.pieces[k].cacheState == q && ignore != Some(k)
    ensures OnlyList(s, u, q, ignore)
  {
    forall x | (x in s.pieces && s.pieces[x].cacheState != q) || ignore == Some(x)
      ensures Spared(s, u, x)
    {
      assert Spared(s, t, x) && x != k && Spared(t, u, x);
    }
  }

  lemma AllSeen(s: State, t: State, q: nat, ignore: Option<Key>)
    requires Inv(s) && q < NUM_LRUS && !IsGhost(q)
    requires Evicted(s, t) && Seen(t, s.lru[q], |s.lru[q]|, q, ignore)
    ensures Exhausted(t, q, ignore)
  {
    hide NothingToEvict, Thinner, Expendable, PieceOk;
    forall x | x in t.pieces && t.pieces[x].cacheState == q && ignore != Some(x)
      ensures NothingToEvict(t.pieces[x])
    {
      assert Kept(s.pieces[x], t.pieces[x]);
      assert x in s.lru[q];
      var j :| 0 <= j < |s.lru[q]| && s.lru[q][j] == x;
      assert SeenAt(t, s.lru[q][j], q);
    }
  }

  lemma NothingSeen(s: State, q: nat, ignore: Option<Key>)
    requires Inv(s) && q < NUM_LRUS
    ensures Unseen(s, s, s.lru[q], 0, q) && Seen(s, s.lru[q], 0, q, ignore)
    ensures OnlyList(s, s, q, ignore) && Evicted(s, s)
  {
    hide PieceOk, Kept, Expendable;
    NothingEvicted(s);
    forall j | 0 <= j < |s.lru[q]|
      ensures UnseenAt(s, s, s.lru[q][j], q)
    {
      assert s.lru[q][j] in s.lru[q];
    }
  }

  ghost predicate CursorsOk(s: State) {
    forall k :: k in s.pieces ==> CursorOk(s.pieces[k])
  }

  /** What going over one list does: left blocks could not be found. */
  ghost predicate ListDone(c: BlockCache.Cache, s: State, q: nat, ignore: Option<Key>, num: nat, left: nat, readSize: int)
    reads c
  {
    && c.Valid()
    && Evicted(s, c.View()) && OnlyList(s, c.View(), q, ignore)
    && left <= num && c.readCacheSize == readSize - (num - left)
  }

  /** The oldest pieces of a list go first: n of them were handled, the later ones are as
      they were, and only the last one handled can have anything left. */
  ghost predicate OldestFirst(s: State, t: State, q: nat, ignore: Option<Key>, n: nat)
    requires q < |s.lru|
  {
    var list := s.lru[q];
    n <= |list| && Unseen(s, t, list, n, q) && (n > 0 ==> Seen(t, list, n - 1, q, ignore))
  }

  lemma HandledSoFar(s: State, t: State, q: nat, ignore: Option<Key>, m: nat, n: nat)
    requires q < |s.lru| && m <= n <= |s.lru[q]| && n <= m + 1
    requires Unseen(s, t, s.lru[q], n, q) && Seen(t, s.lru[q], m, q, ignore)
    ensures OldestFirst(s, t, q, ignore, n)
  {
  }

  /** The loop over one of the read lists. */
  method EvictReadList(c: BlockCache.Cache, q: nat, num: nat, ignore: Option<Key>) returns (left: nat, ghost handled: nat)
    requires c.Valid() && q in {VOLATILE_READ_LRU, READ_LRU1, READ_LRU2}
    modifies c`pieces, c`lru, c`readCacheSize
    ensures ListDone(c, old(c.View()), q, ignore, num, left, old(c.readCacheSize))
    ensures left > 0 ==> Exhausted(c.View(), q, ignore)
    ensures q < |old(c.lru)| && OldestFirst(old(c.View()), c.View(), q, ignore, handled)
    ensures num == 0 ==> c.View() == old(c.View())
  {
    hide Sum, Total, Kept, Expendable, Thinner, Listed, PieceOk, Evicted, OnlyTouches, OnlyList, Seen, Unseen, NothingToEvict, Exhausted;
    ghost var s := c.View();
    ListIsPlain(s, q);
    var list := c.lru[q];
    NothingSeen(s, q, ignore);
    left := num;
    var n := 0;
    ghost var m := 0;
    while n < |list| && left > 0
      invariant 0 <= m <= n <= |list| && n <= m + 1 && (left > 0 ==> m == n)
      invariant ListDone(c, s, q, ignore, num, left, old(c.readCacheSize))
      invariant Unseen(s, c.View(), list, n, q) && Seen(c.View(), list, m, q, ignore)
      invariant num == 0 ==> c.View() == s
    {
      var k := list[n];
      if ignore == Some(k) {
        SkipIgnored(s, c.View(), list, n, q, ignore);
      } else {
        ghost var t := c.View();
        UnseenHere(s, t, list, n, q);
        left := EvictReadPiece(c, k, left);
        SeenNext(s, t, c.View(), list, n, q, ignore);
        OnlyListNext(s, t, c.View(), k, q, ignore);
        EvictedTwice(s, t, c.View());
      }
      n := n + 1;
      m := if left > 0 then n else m;
    }
    handled := n;
    HandledSoFar(s, c.View(), q, ignore, m, n);
    if left > 0 {
      AllSeen(s, c.View(), q, ignore);
    }
  }

  lemma ListIsPlain(s: State, q: nat)
    requires Inv(s) && q < NUM_LRUS
    ensures |s.lru| == NUM_LRUS && NoDuplicates(s.lru[q])
  {
  }

  lemma UnseenHere(s: State, t: State, list: seq<Key>, n: nat, q: nat)
    requires n < |list| && Unseen(s, t, list, n, q)
    ensures UnseenAt(s, t, list[n], q)
  {
  }

  /** One pass over the write list. */
  method EvictWriteList(c: BlockCache.Cache, num: nat, ignore: Option<Key>, pass: nat) returns (left: nat)
    requires c.Valid() && CursorsOk(c.View())
    modifies c`pieces, c`lru, c`readCacheSize
    ensures ListDone(c, old(c.View()), WRITE_LRU, ignore, num, left, old(c.readCacheSize))
    ensures pass > 0 && left > 0 ==> Exhausted(c.View(), WRITE_LRU, ignore)
    ensures num == 0 ==> c.View() == old(c.View())
  {
    hide Sum, Total, Kept, Expendable, Thinner, Listed, PieceOk, Evicted, OnlyTouches, OnlyList, Seen, Unseen, NothingToEvict, Exhausted, CursorOk, HashedOnly;
    ghost var s := c.View();
    ListIsPlain(s, WRITE_LRU);
    var list := c.lru[WRITE_LRU];
    NothingSeen(s, WRITE_LRU, ignore);
    left := num;
    var n := 0;
    while n < |list| && left > 0
      invariant 0 <= n <= |list| && ListDone(c, s, WRITE_LRU, ignore, num, left, old(c.readCacheSize))
      invariant Unseen(s, c.View(), list, n, WRITE_LRU)
      invariant num == 0 ==> c.View() == s
      invariant pass > 0 && left > 0 ==> Seen(c.View(), list, n, WRITE_LRU, ignore)
    {
      var k := list[n];
      if ignore == Some(k) {
        SkipIgnored(s, c.View(), list, n, WRITE_LRU, ignore);
      } else {
        ghost var t := c.View();
        UnseenHere(s, t, list, n, WRITE_LRU);
        left := EvictWritePiece(c, k, left, pass);
        SeenNext(s, t, c.View(), list, n, WRITE_LRU, ignore);
        OnlyListNext(s, t, c.View(), k, WRITE_LRU, ignore);
        EvictedTwice(s, t, c.View());
      }
      n := n + 1;
    }
    if pass > 0 && left > 0 {
      AllSeen(s, c.View(), WRITE_LRU, ignore);
    }
  }

  // ----- the whole operation -----

  /** A list stays exhausted while another one is gone over. */
  lemma StaysExhausted(s: State, t: State, q: nat, r: nat, ignore: Option<Key>)
    requires Exhausted(s, q, ignore) && OnlyList(s, t, r, ignore) && Evicted(s, t) && q != r && !IsGhost(q)
    ensures Exhausted(t, q, ignore)
  {
    hide NothingToEvict, Thinner, Expendable;
    forall x | x in t.pieces && t.pieces[x].cacheState == q && ignore != Some(x)
      ensures NothingToEvict(t.pieces[x])
    {
      assert Kept(s.pieces[x], t.pieces[x]);
      assert Spared(s, t, x);
    }
  }

  lemma IgnoredTwice(s: State, t: State, u: State, r: nat, ignore: Option<Key>)
    requires ignore.Some? ==> Spared(s, t, ignore.value)
    requires OnlyList(t, u, r, ignore)
    ensures ignore.Some? ==> Spared(s, u, ignore.value)
  {
    if ignore.Some? {
      assert Spared(t, u, ignore.value);
    }
  }

  lemma CursorsKept(s: State, t: State)
    requires CursorsOk(s) && Evicted(s, t)
    ensures CursorsOk(t)
  {
    hide Expendable;
    forall k | k in t.pieces
      ensures CursorOk(t.pieces[k])
    {
      assert Kept(s.pieces[k], t.pieces[k]) && CursorOk(s.pieces[k]);
    }
  }

  /** What holds while the lists are gone over. */
  ghost predicate Underway(c: BlockCache.Cache, s: State, ignore: Option<Key>, num: nat, left: nat, readSize: int)
    reads c
  {
    && c.Valid() && CursorsOk(c.View())
    && Evicted(s, c.View()) && (ignore.Some? ==> Spared(s, c.View(), ignore.value))
    && left <= num && c.readCacheSize == readSize - (num - left)
  }

  method EvictNextReadList(c: BlockCache.Cache, q: nat, num: nat, left: nat, ignore: Option<Key>, ghost s: State,
                           ghost readSize: int) returns (left': nat)
    requires Underway(c, s, ignore, num, left, readSize)
    requires q in {VOLATILE_READ_LRU, READ_LRU1, READ_LRU2}
    modifies c`pieces, c`lru, c`readCacheSize
    ensures Underway(c, s, ignore, num, left', readSize) && left' <= left
    ensures Evicted(old(c.View()), c.View()) && OnlyList(old(c.View()), c.View(), q, ignore)
    ensures left' > 0 ==> Exhausted(c.View(), q, ignore)
    ensures left == 0 ==> c.View() == old(c.View())
    ensures c.lastCacheOp == old(c.lastCacheOp)
  {
    hide Sum, Total, Kept, Expendable, Listed, PieceOk, Evicted, OnlyList, Exhausted, CursorsOk, OldestFirst;
    ghost var t := c.View();
    ghost var handled;
    left', handled := EvictReadList(c, q, left, ignore);
    EvictedTwice(s, t, c.View());
    IgnoredTwice(s, t, c.View(), q, ignore);
    CursorsKept(t, c.View());
  }

  method EvictNextWritePass(c: BlockCache.Cache, pass: nat, num: nat, left: nat, ignore: Option<Key>, ghost s: State,
                            ghost readSize: int) returns (left': nat)
    requires Underway(c, s, ignore, num, left, readSize)
    modifies c`pieces, c`lru, c`readCacheSize
    ensures Underway(c, s, ignore, num, left', readSize) && left' <= left
    ensures Evicted(old(c.View()), c.View()) && OnlyList(old(c.View()), c.View(), WRITE_LRU, ignore)
    ensures pass > 0 && left' > 0 ==> Exhausted(c.View(), WRITE_LRU, ignore)
    ensures left == 0 ==> c.View() == old(c.View())
  {
    hide Sum, Total, Kept, Expendable, Listed, PieceOk, Evicted, OnlyList, Exhausted, CursorsOk;
    ghost var t := c.View();
    left' := EvictWriteList(c, left, ignore, pass);
    EvictedTwice(s, t, c.View());
    IgnoredTwice(s, t, c.View(), WRITE_LRU, ignore);
    CursorsKept(t, c.View());
  }

  /** Nothing changed but ghosts and the pieces of the lists qs. */
  ghost predicate OnlyLists(s: State, t: State, qs: set<nat>) {
    forall x :: x in s.pieces && s.pieces[x].cacheState !in qs ==> Spared(s, t, x)
  }

  lemma OnlyOneList(s: State, t: State, q: nat, ignore: Option<Key>)
    requires OnlyList(s, t, q, ignore)
    ensures OnlyLists(s, t, {q})
  {
  }

  lemma OnlyMoreLists(s: State, t: State, u: State, qs: set<nat>, q: nat, ignore: Option<Key>)
    requires OnlyLists(s, t, qs) && OnlyList(t, u, q, ignore)
    ensures OnlyLists(s, u, qs + {q})
  {
    hide Kept;
    forall x | x in s.pieces && s.pieces[x].cacheState !in qs + {q}
      ensures Spared(s, u, x)
    {
      assert Spared(s, t, x);
      if x in t.pieces && !IsGhost(s.pieces[x].cacheState) {
        assert Spared(t, u, x);
      }
    }
  }

  /** A list is only touched when the lists before it in order have nothing more to give. */
  ghost predicate InOrder(s: State, t: State, order: (nat, nat), ignore: Option<Key>) {
    && (Exhausted(t, VOLATILE_READ_LRU, ignore) || OnlyLists(s, t, {VOLATILE_READ_LRU}))
    && (Exhausted(t, order.0, ignore) || OnlyLists(s, t, {VOLATILE_READ_LRU, order.0}))
    && (Exhausted(t, order.1, ignore) || OnlyLists(s, t, {VOLATILE_READ_LRU, order.0, order.1}))
  }

  /** Going over the three read lists. */
  method EvictReadLists(c: BlockCache.Cache, order: (nat, nat), num: nat, ignore: Option<Key>, ghost s: State,
                        ghost readSize: int) returns (left: nat)
    requires order == (READ_LRU1, READ_LRU2) || order == (READ_LRU2, READ_LRU1)
    requires Underway(c, s, ignore, num, num, readSize) && c.View() == s
    modifies c`pieces, c`lru, c`readCacheSize
    ensures Underway(c, s, ignore, num, left, readSize)
    ensures left > 0 ==> ReadListsExhausted(c.View(), ignore)
    ensures InOrder(s, c.View(), order, ignore)
    ensures OnlyLists(s, c.View(), {VOLATILE_READ_LRU, order.0, order.1})
  {
    hide Sum, Total, Kept, Expendable, Listed, PieceOk, Evicted, OnlyList, OnlyLists, Exhausted, CursorsOk;
    left := EvictNextReadList(c, VOLATILE_READ_LRU, num, num, ignore, s, readSize);
    ghost var t1 := c.View();
    OnlyOneList(s, t1, VOLATILE_READ_LRU, ignore);
    left := EvictNextReadList(c, order.0, num, left, ignore, s, readSize);
    ghost var t2 := c.View();
    OnlyMoreLists(s, t1, t2, {VOLATILE_READ_LRU}, order.0, ignore);
    assert {VOLATILE_READ_LRU} + {order.0} == {VOLATILE_READ_LRU, order.0};
    left := EvictNextReadList(c, order.1, num, left, ignore, s, readSize);
    OnlyMoreLists(s, t2, c.View(), {VOLATILE_READ_LRU, order.0}, order.1, ignore);
    assert {VOLATILE_READ_LRU, order.0} + {order.1} == {VOLATILE_READ_LRU, order.0, order.1};
    if Exhausted(t1, VOLATILE_READ_LRU, ignore) {
      StaysExhausted(t1, t2, VOLATILE_READ_LRU, order.0, ignore);
      StaysExhausted(t2, c.View(), VOLATILE_READ_LRU, order.1, ignore);
    }
    if Exhausted(t2, order.0, ignore) {
      StaysExhausted(t2, c.View(), order.0, order.1, ignore);
    }
  }

  /** Nothing outside of the volatile list and list q is touched unless q has nothing more to
      give. */
  ghost predicate PrefersList(s: State, t: State, q: nat, ignore: Option<Key>) {
    Exhausted(t, q, ignore) || OnlyLists(s, t, {VOLATILE_READ_LRU, q})
  }

  /** The read lists have nothing more to give. */
  ghost predicate ReadListsExhausted(s: State, ignore: Option<Key>) {
    Exhausted(s, VOLATILE_READ_LRU, ignore) && Exhausted(s, READ_LRU1, ignore) && Exhausted(s, READ_LRU2, ignore)
  }

  /** Frees num - left clean blocks that are not in use, and nothing else; the count of read
      blocks drops by as many. If it could not free enough, the read lists have nothing more
      to give, and neither has the write list, unless it was not looked at because at least
      as many blocks are pinned as there are read blocks; if that is so from the start, the
      write list is left alone. The volatile list goes first. Of the two ends of the ARC cache
      the one that did not have the last ghost hit is preferred, as the other is to grow; after
      a miss it is the longer one. */
  method TryEvictBlocks(c: BlockCache.Cache, num: int, ignore: Option<Key>) returns (left: int)
    requires c.Valid() && CursorsOk(c.View())
    modifies c`pieces, c`lru, c`readCacheSize
    ensures c.Valid() && CursorsOk(c.View())
    ensures num <= 0 ==> left == 0 && c.View() == old(c.View()) && c.readCacheSize == old(c.readCacheSize)
    ensures num > 0 ==> 0 <= left <= num && c.readCacheSize == old(c.readCacheSize) - (num - left)
    ensures Evicted(old(c.View()), c.View())
    ensures ignore.Some? ==> Spared(old(c.View()), c.View(), ignore.value)
    ensures left > 0 ==> ReadListsExhausted(c.View(), ignore)
    ensures left > 0 ==> Exhausted(c.View(), WRITE_LRU, ignore) || c.readCacheSize <= c.pinnedBlocks
    ensures num > 0 && old(c.readCacheSize) <= c.pinnedBlocks ==>
      OnlyLists(old(c.View()), c.View(), {VOLATILE_READ_LRU, READ_LRU1, READ_LRU2})
    ensures |old(c.lru)| == NUM_LRUS
    ensures num > 0 ==> PrefersList(old(c.View()), c.View(), VOLATILE_READ_LRU, ignore)
    ensures num > 0 && old(c.lastCacheOp) == GhostHitLru1 ==> PrefersList(old(c.View()), c.View(), READ_LRU2, ignore)
    ensures num > 0 && old(c.lastCacheOp) == GhostHitLru2 ==> PrefersList(old(c.View()), c.View(), READ_LRU1, ignore)
    ensures num > 0 && old(c.lastCacheOp) == CacheMiss && |old(c.lru)[READ_LRU2]| > |old(c.lru)[READ_LRU1]| ==>
      PrefersList(old(c.View()), c.View(), READ_LRU2, ignore)
    ensures num > 0 && old(c.lastCacheOp) == CacheMiss && |old(c.lru)[READ_LRU2]| <= |old(c.lru)[READ_LRU1]| ==>
      PrefersList(old(c.View()), c.View(), READ_LRU1, ignore)
    ensures num > 0 ==>
      ReadListsExhausted(c.View(), ignore) || OnlyLists(old(c.View()), c.View(), {VOLATILE_READ_LRU, READ_LRU1, READ_LRU2})
  {
    hide Sum, Total, Kept, Expendable, Listed, PieceOk, Evicted, OnlyList, OnlyLists, Exhausted, CursorsOk, InOrder, PrefersList, ReadListsExhausted;
    NothingEvicted(c.View());
    ListIsPlain(c.View(), READ_LRU1);
    if num <= 0 {
      return 0;
    }
    ghost var s, readSize := c.View(), c.readCacheSize;
    var order := (READ_LRU1, READ_LRU2);
    if c.lastCacheOp == CacheMiss {
      if |c.lru[READ_LRU2]| > |c.lru[READ_LRU1]| {
        order := (READ_LRU2, READ_LRU1);
      }
    } else if c.lastCacheOp == GhostHitLru1 {
      order := (READ_LRU2, READ_LRU1);
    }
    left := EvictReadLists(c, order, num, ignore, s, readSize);
    assert {VOLATILE_READ_LRU, order.0, order.1} == {VOLATILE_READ_LRU, READ_LRU1, READ_LRU2};
    if left > 0 && c.readCacheSize > c.pinnedBlocks {
      ghost var t := c.View();
      left := EvictNextWritePass(c, 0, num, left, ignore, s, readSize);
      ghost var u := c.View();
      left := EvictNextWritePass(c, 1, num, left, ignore, s, readSize);
      ReadListsStayExhausted(t, u, order, ignore);
      ReadListsStayExhausted(u, c.View(), order, ignore);
      InOrderOnceExhausted(s, c.View(), order, ignore);
    }
    InOrderPrefers(s, c.View(), order, ignore);
  }

  lemma InOrderPrefers(s: State, t: State, order: (nat, nat), ignore: Option<Key>)
    requires InOrder(s, t, order, ignore)
    ensures PrefersList(s, t, VOLATILE_READ_LRU, ignore) && PrefersList(s, t, order.0, ignore)
  {
    hide Exhausted, OnlyLists;
    assert {VOLATILE_READ_LRU, VOLATILE_READ_LRU} == {VOLATILE_READ_LRU};
  }

  lemma ReadListsStayExhausted(t: State, u: State, order: (nat, nat), ignore: Option<Key>)
    requires ReadListsExhausted(t, ignore) && OnlyList(t, u, WRITE_LRU, ignore) && Evicted(t, u)
    ensures ReadListsExhausted(u, ignore)
  {
    hide Exhausted, OnlyList, Evicted;
    StaysExhausted(t, u, VOLATILE_READ_LRU, WRITE_LRU, ignore);
    StaysExhausted(t, u, READ_LRU1, WRITE_LRU, ignore);
    StaysExhausted(t, u, READ_LRU2, WRITE_LRU, ignore);
  }

  lemma InOrderOnceExhausted(s: State, t: State, order: (nat, nat), ignore: Option<Key>)
    requires ReadListsExhausted(t, ignore)
    requires order == (READ_LRU1, READ_LRU2) || order == (READ_LRU2, READ_LRU1)
    ensures InOrder(s, t, order, ignore)
  {
    hide Exhausted;
  }
}
