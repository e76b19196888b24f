/** The state changes of the block cache in a caller's terms: which list a piece is in
    afterwards and at which place, what became of each block, and what stays as it was. */
module CacheEffects {
  import opened Options
  import opened CacheModel
  import opened CacheOps
  import opened CacheFill

  // ----- the lists -----

  /** Taking k out leaves the others in their order. */
  lemma {:induction false} WithoutIs(a: seq<Key>, k: Key, b: seq<Key>)
    requires k !in a
    ensures Without(a + [k] + b, k) == a + b
  {
    var s := a + [k] + b;
    if a == [] {
      assert s[0] == k && s[1..] == b;
    } else {
      assert s[0] == a[0] && s[1..] == a[1..] + [k] + b;
      WithoutIs(a[1..], k, b);
      assert [a[0]] + (a[1..] + b) == a + b;
    }
  }

  /** The same list with k, which was in it, left out. */
  ghost predicate LeftOut(was: seq<Key>, now: seq<Key>, k: Key) {
    exists a, b :: was == a + [k] + b && now == a + b
  }

  lemma WithoutLeavesOut(s: seq<Key>, k: Key)
    requires k in s
    ensures LeftOut(s, Without(s, k), k)
  {
    hide Without;
    var i := FirstPlace(s, k);
    assert s == s[..i] + [k] + s[i + 1..];
    WithoutIs(s[..i], k, s[i + 1..]);
  }

  lemma {:induction false} FirstPlace(s: seq<Key>, k: Key) returns (i: nat)
    requires k in s
    ensures i < |s| && s[i] == k && k !in s[..i]
  {
    if s[0] == k {
      i := 0;
    } else {
      i := FirstPlace(s[1..], k);
      assert s[..i + 1] == [s[0]] + s[1..][..i];
      i := i + 1;
    }
  }

  /** Every piece other than k is as it was. */
  predicate OthersKept(s: State, t: State, k: Key) {
    && (forall x :: x in t.pieces && x != k ==> x in s.pieces)
    && (forall x :: x in s.pieces && x != k ==> x in t.pieces && t.pieces[x] == s.pieces[x])
  }

  /** Every list other than these two is as it was. */
  predicate ListsKept(s: State, t: State, q: nat, r: nat) {
    |t.lru| == |s.lru| && forall i :: 0 <= i < |s.lru| && i != q && i != r ==> t.lru[i] == s.lru[i]
  }

  /** k went from its list to the end of list q, and nothing else moved. */
  ghost predicate WentTo(s: State, t: State, k: Key, q: nat)
    requires k in s.pieces && s.pieces[k].cacheState < |s.lru| && q < |s.lru|
  {
    var from := s.pieces[k].cacheState;
    && OthersKept(s, t, k) && ListsKept(s, t, from, q)
    && k in t.pieces && t.pieces[k].cacheState == q
    && if from != q then LeftOut(s.lru[from], t.lru[from], k) && t.lru[q] == s.lru[q] + [k]
       else t.lru[q] != [] && t.lru[q][|t.lru[q]| - 1] == k && LeftOut(s.lru[q], t.lru[q][..|t.lru[q]| - 1], k)
  }

  lemma MoveGoes(s: State, k: Key, p: Piece, q: nat)
    requires Listed(s) && k in s.pieces && q < NUM_LRUS
    ensures WentTo(s, Move(s, k, p, q), k, q)
    ensures Move(s, k, p, q).pieces[k] == p.(cacheState := q) && Move(s, k, p, q).lastOp == s.lastOp
  {
    hide Without, LeftOut, Listed;
    ListedAt(s, k);
    WithoutLeavesOut(s.lru[s.pieces[k].cacheState], k);
    AppendedTo(Unlink(s, k), q, k);
  }

  lemma ListedAt(s: State, k: Key)
    requires Listed(s) && k in s.pieces
    ensures |s.lru| == NUM_LRUS && s.pieces[k].cacheState < NUM_LRUS && k in s.lru[s.pieces[k].cacheState]
  {
  }

  lemma AppendedTo(lru: seq<seq<Key>>, q: nat, k: Key)
    requires q < |lru|
    ensures (lru[q] + [k])[..|lru[q] + [k]| - 1] == lru[q]
  {
  }

  /** k is gone from the pieces and from its list. */
  ghost predicate Erased(s: State, t: State, k: Key)
    requires k in s.pieces && s.pieces[k].cacheState < |s.lru|
  {
    var from := s.pieces[k].cacheState;
    && OthersKept(s, t, k) && ListsKept(s, t, from, from)
    && k !in t.pieces && LeftOut(s.lru[from], t.lru[from], k) && t.lastOp == s.lastOp
  }

  lemma RemoveErases(s: State, k: Key)
    requires Listed(s) && k in s.pieces
    ensures Erased(s, Remove(s, k), k)
  {
    hide Without, LeftOut;
    WithoutLeavesOut(s.lru[s.pieces[k].cacheState], k);
  }

  /** Nothing but the record of k changed. */
  predicate OnlyRecord(s: State, t: State, k: Key) {
    && OthersKept(s, t, k) && t.lru == s.lru && t.lastOp == s.lastOp
    && k in s.pieces && k in t.pieces && t.pieces[k].cacheState == s.pieces[k].cacheState
  }

  /** A hit. The first hit of a block moves nothing, unless the piece is a ghost: a ghost of
      the first list comes back to the first list, one of the second to the second. A block
      that was hit before brings its piece to the end of the second list, ghost or not. A
      piece of the write list or the volatile one stays. */
  lemma HitGoesTo(s: State, k: Key, block: nat)
    requires Listed(s) && HasBlock(s, k, block)
    ensures var t, p := CacheHit(s, k, block), s.pieces[k]; var again := p.blocks[block].hit;
      && (p.cacheState < READ_LRU1 ==> t == s)
      && (p.cacheState == READ_LRU1 && !again ==> t == s)
      && (p.cacheState == READ_LRU1 && again ==> WentTo(s, t, k, READ_LRU2) && t.lastOp == s.lastOp)
      && (p.cacheState == READ_LRU2 && !again ==> t == s)
      && (p.cacheState == READ_LRU2 && again ==> WentTo(s, t, k, READ_LRU2) && t.lastOp == s.lastOp)
      && (p.cacheState == READ_LRU1_GHOST ==> t.lastOp == GhostHitLru1)
      && (p.cacheState == READ_LRU1_GHOST && !again ==> WentTo(s, t, k, READ_LRU1))
      && (p.cacheState == READ_LRU1_GHOST && again ==> WentTo(s, t, k, READ_LRU2))
      && (p.cacheState == READ_LRU2_GHOST ==> WentTo(s, t, k, READ_LRU2) && t.lastOp == GhostHitLru2)
  {
    hide Move, LeftOut;
    var p := s.pieces[k];
    var target := HitTarget(p, p.blocks[block].hit);
    if target.Some? {
      MoveGoes(s, k, p, target.value);
      OpIsApart(s, Move(s, k, p, target.value), CacheHit(s, k, block), k, target.value);
    }
  }

  lemma OpIsApart(s: State, t: State, u: State, k: Key, q: nat)
    requires k in s.pieces && s.pieces[k].cacheState < |s.lru| && q < |s.lru|
    requires WentTo(s, t, k, q) && u.pieces == t.pieces && u.lru == t.lru
    ensures WentTo(s, u, k, q)
  {
    hide LeftOut;
  }

  /** A piece with dirty blocks or a hash goes to the write list; without either it leaves
      it for the first read list; otherwise it stays. */
  lemma UpdateGoesTo(s: State, k: Key)
    requires Listed(s) && k in s.pieces
    ensures var t, p := UpdateCacheState(s, k), s.pieces[k]; var held := p.numDirty > 0 || p.hash.Some?;
      && (held && p.cacheState != WRITE_LRU ==> WentTo(s, t, k, WRITE_LRU))
      && (!held && p.cacheState == WRITE_LRU ==> WentTo(s, t, k, READ_LRU1))
      && ((held <==> p.cacheState == WRITE_LRU) ==> t == s)
    ensures k in UpdateCacheState(s, k).pieces && OthersKept(s, UpdateCacheState(s, k), k)
    ensures UpdateCacheState(s, k).lastOp == s.lastOp
    ensures UpdateCacheState(s, k).pieces[k] == s.pieces[k].(cacheState := UpdateCacheState(s, k).pieces[k].cacheState)
  {
    hide Move, LeftOut;
    var p := s.pieces[k];
    if DesiredState(p) != p.cacheState {
      MoveGoes(s, k, p, DesiredState(p));
    }
  }

  // ----- allocating and freeing pieces -----

  /** A piece that was just created: n empty blocks and nothing else. */
  predicate Blank(p: Piece, n: nat) {
    && |p.blocks| == n && (forall i :: 0 <= i < n ==> p.blocks[i] == EMPTY_BLOCK)
    && p.numDirty == p.numBlocks == p.refcount == p.pinned == p.pieceRefcount == 0
    && !p.hashing && !p.hashingDone && p.hash == None && !p.outstandingRead
    && !p.markedForDeletion && !p.markedForEviction && p.jobs == [] && p.readJobs == []
  }

  /** A piece that was not there is created at the end of the list asked for, which is a
      miss if that is the first read list. One that was there is no longer to be evicted,
      and comes forward to that list if it was in a later one. */
  lemma AllocateGoesTo(s: State, k: Key, n: nat, cacheState: nat)
    requires Inv(s) && WRITE_LRU <= cacheState < NUM_LRUS
    ensures var t := AllocatePiece(s, k, n, cacheState);
      && k in t.pieces && OthersKept(s, t, k)
      && (k !in s.pieces ==>
            && Blank(t.pieces[k], n) && t.pieces[k].cacheState == cacheState
            && t.lru[cacheState] == s.lru[cacheState] + [k] && ListsKept(s, t, cacheState, cacheState)
            && t.lastOp == if cacheState == READ_LRU1 then CacheMiss else s.lastOp)
      && (k in s.pieces ==>
            && t.lastOp == s.lastOp
            && t.pieces[k] == s.pieces[k].(markedForEviction := false, cacheState := t.pieces[k].cacheState)
            && (s.pieces[k].cacheState > cacheState ==> WentTo(s, t, k, cacheState))
            && (s.pieces[k].cacheState <= cacheState ==> OnlyRecord(s, t, k)))
  {
    hide Move, LeftOut, Listed, PieceOk, Sum;
    if k in s.pieces {
      var p := s.pieces[k].(markedForEviction := false);
      if p.cacheState > cacheState {
        MoveGoes(s, k, p, cacheState);
      }
    } else {
      ListsHaveRoom(s);
    }
  }

  lemma ListsHaveRoom(s: State)
    requires Inv(s)
    ensures |s.lru| == NUM_LRUS
  {
  }

  /** A piece without blocks: a volatile one is erased; one of the two read lists goes to
      the end of the ghost list of its own list, of which only the newest stay. */
  lemma GhostGoesTo(s: State, k: Key, size: nat)
    requires Inv(s) && k in s.pieces && size > 0
    ensures var t, p := MoveToGhost(s, k, size), s.pieces[k];
      && (p.cacheState == VOLATILE_READ_LRU ==> Erased(s, t, k))
      && (p.cacheState == READ_LRU1 ==> Retired(s, t, k, p, READ_LRU1_GHOST, size))
      && (p.cacheState == READ_LRU2 ==> Retired(s, t, k, p, READ_LRU2_GHOST, size))
      && (p.cacheState !in {VOLATILE_READ_LRU, READ_LRU1, READ_LRU2} ==> t == s)
  {
    hide Move, Remove, LeftOut, Trim, Retired, Erased;
    var p := s.pieces[k];
    if p.cacheState == VOLATILE_READ_LRU {
      RemoveErases(s, k);
    } else if p.cacheState == READ_LRU1 || p.cacheState == READ_LRU2 {
      GhostRetires(s, k, size);
    }
  }

  /** k, with record p, went to the end of ghost list g, of which the size - 1 newest stayed. */
  ghost predicate Retired(s: State, t: State, k: Key, p: Piece, g: nat, size: nat)
    requires k in s.pieces && s.pieces[k].cacheState < |s.lru| && g < |s.lru| && size > 0
  {
    var from, gone := s.pieces[k].cacheState, Gone(s.lru[g], size);
    && ListsKept(s, t, from, g) && LeftOut(s.lru[from], t.lru[from], k) && t.lastOp == s.lastOp
    && t.lru[g] == s.lru[g][gone..] + [k]
    && k in t.pieces && t.pieces[k] == p.(cacheState := g)
    && (forall x :: x in t.pieces ==> x in s.pieces && (x != k ==> t.pieces[x] == s.pieces[x]))
    && (forall x :: x in s.pieces && x !in t.pieces ==> s.pieces[x].cacheState == g)
  }

  /** How many of a ghost list have to go to make room for one more. */
  function Gone(q: seq<Key>, size: nat): (n: nat)
    requires size > 0
    ensures n <= |q| && |q| - n < size && (n > 0 ==> |q| - n == size - 1)
  {
    if |q| < size then 0 else |q| - size + 1
  }

  lemma GhostRetires(s: State, k: Key, size: nat)
    requires Inv(s) && k in s.pieces && size > 0
    requires s.pieces[k].cacheState == READ_LRU1 || s.pieces[k].cacheState == READ_LRU2
    ensures Retired(s, MoveToGhost(s, k, size), k, s.pieces[k], s.pieces[k].cacheState + 1, size)
  {
    hide Trim, LeftOut, Move, Inv, Retired;
    var p, g := s.pieces[k], s.pieces[k].cacheState + 1;
    ListsHaveRoom(s);
    InvIsListed(s);
    TrimKeeps(s, g, size, k);
    TrimKeepsInv(s, g, size);
    TrimKeepsNewest(s, g, size);
    var t := Trim(s, g, size);
    MoveGoes(t, k, p, g);
    assert Newest(s.lru[g], size) == s.lru[g][Gone(s.lru[g], size)..];
    RetiredBy(s, t, Move(t, k, p, g), k, g, size);
  }

  lemma InvIsListed(s: State)
    requires Inv(s)
    ensures Listed(s)
  {
  }

  lemma RetiredBy(s: State, t: State, u: State, k: Key, g: nat, size: nat)
    requires k in s.pieces && s.pieces[k].cacheState < |s.lru| && g < |s.lru| && s.pieces[k].cacheState != g && size > 0
    requires t.lru == s.lru[g := s.lru[g][Gone(s.lru[g], size)..]] && t.lastOp == s.lastOp
    requires k in t.pieces && t.pieces[k] == s.pieces[k]
    requires forall x :: x in t.pieces ==> x in s.pieces && t.pieces[x] == s.pieces[x]
    requires forall x :: x in s.pieces && x !in t.pieces ==> s.pieces[x].cacheState == g
    requires WentTo(t, u, k, g) && u.pieces[k] == s.pieces[k].(cacheState := g) && u.lastOp == t.lastOp
    ensures Retired(s, u, k, s.pieces[k], g, size)
  {
    hide LeftOut;
  }

  // ----- eviction -----

  /** Nothing of the piece is in use. A hash that was started does not count. */
  predicate Idle(p: Piece) {
    && (forall i :: 0 <= i < |p.blocks| ==> p.blocks[i].refcount == 0)
    && p.pieceRefcount == 0 && !p.hashing && p.readJobs == [] && !p.outstandingRead
  }

  /** Only the blocks and what counts them changed. */
  predicate SameBut(p: Piece, q: Piece) {
    && |q.blocks| == |p.blocks| && Counted(q)
    && q == p.(blocks := q.blocks, numDirty := q.numDirty, numBlocks := q.numBlocks,
               refcount := q.refcount, pinned := q.pinned)
  }

  /** The block lost its buffer, if it had one. */
  predicate Freed(b: Block, c: Block) {
    c == b.(buf := None, dirty := false)
  }

  /** The blocks nobody refers to are freed, dirty or not, and the others are as before. */
  predicate Shed(p: Piece, q: Piece) {
    && SameBut(p, q)
    && forall i :: 0 <= i < |p.blocks| ==>
         if p.blocks[i].refcount == 0 then Freed(p.blocks[i], q.blocks[i]) else q.blocks[i] == p.blocks[i]
  }

  /** No buffer, no job and no hash. */
  predicate Vacated(p: Piece, q: Piece) {
    && |q.blocks| == |p.blocks| && (forall i :: 0 <= i < |q.blocks| ==> q.blocks[i].buf.None?)
    && q.jobs == [] && q.hash == None && q.numBlocks == 0
  }

  lemma MapSheds(p: Piece)
    requires PieceOk(p)
    ensures var q := Recount(p, MapBlocks(p.blocks, DropUnreferenced)); Shed(p, q) && (Idle(p) ==> q.numBlocks == 0)
  {
    hide Sum;
    var q := Recount(p, MapBlocks(p.blocks, DropUnreferenced));
    forall i | 0 <= i < |p.blocks|
      ensures if p.blocks[i].refcount == 0 then Freed(p.blocks[i], q.blocks[i]) else q.blocks[i] == p.blocks[i]
    {
      assert BlockOk(p.blocks[i]);
    }
    if Idle(p) {
      forall i | 0 <= i < |q.blocks|
        ensures Weigh(q.blocks[i], Cached) == 0
      {
        assert p.blocks[i].refcount == 0;
      }
      ZeroSum(q.blocks, Cached);
    }
  }

  /** The test of evict_piece() behind the loop. */
  lemma IdleIsOk(p: Piece)
    requires PieceOk(p)
    ensures var q := Recount(p, MapBlocks(p.blocks, DropUnreferenced)); OkToEvict(q, true) && q.numBlocks == 0 <==> Idle(p)
  {
    hide Sum, MapBlocks;
    var q := Recount(p, MapBlocks(p.blocks, DropUnreferenced));
    MapSheds(p);
    MapShrinks(p.blocks, DropUnreferenced, Refs);
    if q.refcount == 0 {
      SumIsZero(p.blocks, Refs);
      forall i | 0 <= i < |p.blocks|
        ensures p.blocks[i].refcount == 0
      {
        assert Weigh(p.blocks[i], Refs) == 0;
      }
    }
    if Idle(p) {
      forall i | 0 <= i < |p.blocks|
        ensures Weigh(p.blocks[i], Refs) == 0
      {
        assert p.blocks[i].refcount == 0;
      }
      ZeroSum(p.blocks, Refs);
    }
  }

  lemma NoBuffers(p: Piece, q: Piece)
    requires PieceOk(p) && Shed(p, q) && q.numBlocks == 0
    ensures Vacated(p, q.(hash := None, jobs := []))
    ensures OkToEvict(q, true) ==> PieceOk(q.(hash := None, jobs := []))
  {
    hide Sum;
    SumIsZero(q.blocks, Cached);
    SumOfKinds(q.blocks);
    forall i | 0 <= i < |q.blocks|
      ensures q.blocks[i].buf.None? && BlockOk(q.blocks[i])
    {
      assert Weigh(q.blocks[i], Cached) == 0 && BlockOk(p.blocks[i]);
    }
  }

  /** evict_piece(). The piece is given up exactly if nothing of it is in use; then its jobs
      are handed over, and it is erased, or becomes the newest ghost of its read list.
      Otherwise it loses the blocks nobody refers to. */
  lemma EvictGoesTo(s: State, k: Key, allowGhost: bool, size: nat)
    requires Inv(s) && k in s.pieces && size > 0
    ensures var e, p := EvictPiece(s, k, allowGhost, size), s.pieces[k];
      && (e.evicted <==> Idle(p))
      && (!e.evicted ==> e.jobs == [] && OnlyRecord(s, e.state, k) && Shed(p, e.state.pieces[k]))
      && (e.evicted ==> e.jobs == p.jobs && Discarded(s, e.state, k, allowGhost, size))
  {
    hide Sum, MapBlocks, Inv, Discarded, MoveToGhost, Remove, Shed, OkToEvict;
    InvIsListed(s);
    ListsHaveRoom(s);
    var p := s.pieces[k];
    RecordIsOk(s, k);
    MapSheds(p);
    IdleIsOk(p);
    if Idle(p) {
      EvictDiscards(s, k, allowGhost, size);
    }
  }

  lemma RecordIsOk(s: State, k: Key)
    requires Inv(s) && k in s.pieces
    ensures PieceOk(s.pieces[k])
  {
  }

  /** A piece that may not become a ghost, or is in the write list or the volatile one, is
      erased; a ghost stays where it is; a piece of a read list goes to the ghosts of it. */
  ghost predicate Discarded(s: State, t: State, k: Key, allowGhost: bool, size: nat)
    requires k in s.pieces && |s.lru| == NUM_LRUS && s.pieces[k].cacheState < NUM_LRUS && size > 0
  {
    var p := s.pieces[k];
    && (!allowGhost || p.cacheState < READ_LRU1 ==> Erased(s, t, k))
    && (allowGhost && IsGhost(p.cacheState) ==> OnlyRecord(s, t, k) && Vacated(p, t.pieces[k]))
    && (allowGhost && p.cacheState == READ_LRU1 ==> BecameGhost(s, t, k, READ_LRU1_GHOST, size))
    && (allowGhost && p.cacheState == READ_LRU2 ==> BecameGhost(s, t, k, READ_LRU2_GHOST, size))
  }

  ghost predicate BecameGhost(s: State, t: State, k: Key, g: nat, size: nat)
    requires k in s.pieces && s.pieces[k].cacheState < |s.lru| && g < |s.lru| && size > 0
  {
    k in t.pieces && Vacated(s.pieces[k], t.pieces[k]) && Retired(s, t, k, t.pieces[k], g, size)
  }

  lemma EvictDiscards(s: State, k: Key, allowGhost: bool, size: nat)
    requires Inv(s) && k in s.pieces && size > 0 && |s.lru| == NUM_LRUS
    requires Idle(s.pieces[k]) && EvictPiece(s, k, allowGhost, size).evicted
    ensures Discarded(s, EvictPiece(s, k, allowGhost, size).state, k, allowGhost, size)
  {
    hide Sum, MapBlocks, MoveToGhost, Remove, Vacated, Retired, Erased, Inv, OkToEvict;
    var p := s.pieces[k];
    var left := Recount(p, MapBlocks(p.blocks, DropUnreferenced));
    var t := Put(s, k, left.(hash := None, jobs := []));
    RecordIsOk(s, k);
    EvictVacates(s, k, left);
    InvIsListed(t);
    if !allowGhost || p.cacheState < READ_LRU1 {
      RemoveErases(t, k);
      ErasedToo(s, t, Remove(t, k), k);
    } else if !IsGhost(p.cacheState) {
      GhostGoesTo(t, k, size);
      RetiredToo(s, t, MoveToGhost(t, k, size), k, p.cacheState + 1, size);
    }
  }

  lemma EvictVacates(s: State, k: Key, left: Piece)
    requires Inv(s) && k in s.pieces && Idle(s.pieces[k])
    requires left == Recount(s.pieces[k], MapBlocks(s.pieces[k].blocks, DropUnreferenced))
    ensures OkToEvict(left, true) && left.numBlocks == 0
    ensures var t := Put(s, k, left.(hash := None, jobs := []));
      Inv(t) && OnlyRecord(s, t, k) && Vacated(s.pieces[k], t.pieces[k])
  {
    hide Sum, MapBlocks, Vacated, Inv, Shed, OkToEvict;
    var p := s.pieces[k];
    RecordIsOk(s, k);
    MapSheds(p);
    IdleIsOk(p);
    NoBuffers(p, left);
    PutKeepsInv(s, k, left.(hash := None, jobs := []));
  }

  lemma ErasedToo(s: State, t: State, u: State, k: Key)
    requires k in s.pieces && s.pieces[k].cacheState < |s.lru| && OnlyRecord(s, t, k) && Erased(t, u, k)
    ensures Erased(s, u, k)
  {
    hide LeftOut;
  }

  lemma RetiredToo(s: State, t: State, u: State, k: Key, g: nat, size: nat)
    requires k in s.pieces && s.pieces[k].cacheState < |s.lru| && g < |s.lru| && size > 0 && s.pieces[k].cacheState != g
    requires OnlyRecord(s, t, k) && Vacated(s.pieces[k], t.pieces[k]) && Retired(t, u, k, t.pieces[k], g, size)
    ensures BecameGhost(s, u, k, g, size)
  {
    hide LeftOut;
  }

  /** A piece that is to be evicted, has no job and is not in use in any way, not even by a
      hash that has got further than its start, is discarded; any other stays as it is. */
  ghost predicate FreedIfDone(s: State, t: State, k: Key, size: nat)
    requires Inv(s) && k in s.pieces && size > 0
  {
    var p := s.pieces[k];
    if p.markedForEviction && p.jobs == [] && Idle(p) && (p.hash.None? || p.hash.value == 0)
    then Discarded(s, t, k, !p.markedForDeletion, size)
    else t == s
  }

  lemma MaybeFreeGoesTo(s: State, k: Key, size: nat)
    requires Inv(s) && k in s.pieces && size > 0
    ensures FreedIfDone(s, MaybeFreePiece(s, k, size), k, size)
  {
    hide Sum, Inv, Discarded, EvictPiece;
    var p := s.pieces[k];
    InvIsListed(s);
    ListsHaveRoom(s);
    RecordIsOk(s, k);
    ReferencesCount(p);
    EvictGoesTo(s, k, !p.markedForDeletion, size);
  }

  lemma ReferencesCount(p: Piece)
    requires PieceOk(p)
    ensures p.refcount == 0 <==> forall i :: 0 <= i < |p.blocks| ==> p.blocks[i].refcount == 0
  {
    hide Sum;
    if p.refcount == 0 {
      SumIsZero(p.blocks, Refs);
      forall i | 0 <= i < |p.blocks|
        ensures p.blocks[i].refcount == 0
      {
        assert Weigh(p.blocks[i], Refs) == 0;
      }
    } else if forall i :: 0 <= i < |p.blocks| ==> p.blocks[i].refcount == 0 {
      ZeroSum(p.blocks, Refs);
    }
  }

  /** mark_for_eviction(): discarded now if nothing of it is in use; otherwise it loses what
      nobody refers to, and is marked for later, for deletion if it may not be a ghost. */
  lemma MarkGoesTo(s: State, k: Key, allowGhost: bool, size: nat)
    requires Inv(s) && k in s.pieces && size > 0
    ensures var t, p := MarkForEviction(s, k, allowGhost, size), s.pieces[k];
      if Idle(p)
      then |s.lru| == NUM_LRUS && p.cacheState < NUM_LRUS && Discarded(s, t, k, allowGhost, size)
      else
        && OnlyRecord(s, t, k)
        && t.pieces[k].markedForEviction && t.pieces[k].markedForDeletion == !allowGhost
        && Shed(p.(markedForEviction := true, markedForDeletion := !allowGhost), t.pieces[k])
  {
    hide Sum, Inv, Discarded, EvictPiece;
    InvIsListed(s);
    ListsHaveRoom(s);
    EvictGoesTo(s, k, allowGhost, size);
  }

  /** abort_dirty(): the dirty blocks nobody refers to are gone, all others are as before,
      and a piece that has no dirty block left and no hash leaves the write list. */
  lemma AbortGoesTo(s: State, k: Key)
    requires Inv(s) && k in s.pieces
    ensures var t, p := AbortDirty(s, k), s.pieces[k];
      && k in t.pieces && OthersKept(s, t, k) && t.lastOp == s.lastOp
      && DirtyShed(p.(cacheState := t.pieces[k].cacheState), t.pieces[k])
      && (p.cacheState == WRITE_LRU && p.hash.None? && t.pieces[k].numDirty == 0 ==> WentTo(s, t, k, READ_LRU1))
      && (p.cacheState == WRITE_LRU && (p.hash.Some? || t.pieces[k].numDirty > 0) ==> t.lru == s.lru)
  {
    hide Sum, MapBlocks, Move, Listed, PieceOk, UpdateCacheState, WentTo, OthersKept, DirtyShed;
    var p := s.pieces[k];
    var left := Recount(p, MapBlocks(p.blocks, DropDirty));
    var t := Put(s, k, left);
    PutIsListed(s, k, left);
    DirtyDropped(p);
    UpdateGoesTo(t, k);
    RecordPut(s, k, left);
    GoesToo(s, t, UpdateCacheState(t, k), k);
    ShedElsewhere(p, left, UpdateCacheState(t, k).pieces[k].cacheState);
  }

  /** The dirty blocks nobody refers to are freed, and the others are as before. */
  predicate DirtyShed(p: Piece, q: Piece) {
    && SameBut(p, q)
    && forall i :: 0 <= i < |p.blocks| ==>
         if p.blocks[i].dirty && p.blocks[i].refcount == 0 then Freed(p.blocks[i], q.blocks[i])
         else q.blocks[i] == p.blocks[i]
  }

  lemma DirtyDropped(p: Piece)
    requires PieceOk(p)
    ensures DirtyShed(p, Recount(p, MapBlocks(p.blocks, DropDirty)))
  {
    hide Sum;
    forall i | 0 <= i < |p.blocks|
      ensures BlockOk(p.blocks[i])
    {
    }
  }

  lemma ShedElsewhere(p: Piece, q: Piece, cacheState: nat)
    requires DirtyShed(p, q)
    ensures DirtyShed(p.(cacheState := cacheState), q.(cacheState := cacheState))
  {
  }

  lemma RecordPut(s: State, k: Key, p: Piece)
    requires k in s.pieces && p.cacheState == s.pieces[k].cacheState
    ensures OnlyRecord(s, Put(s, k, p), k)
  {
  }

  /** A change of the record alone does not matter for where a piece goes afterwards. */
  lemma GoesToo(s: State, t: State, u: State, k: Key)
    requires |s.lru| == NUM_LRUS && k in s.pieces && s.pieces[k].cacheState < NUM_LRUS && OnlyRecord(s, t, k)
    ensures OthersKept(t, u, k) ==> OthersKept(s, u, k)
    ensures forall q: nat :: q < NUM_LRUS && WentTo(t, u, k, q) ==> WentTo(s, u, k, q)
  {
    hide LeftOut;
  }

  lemma PutIsListed(s: State, k: Key, p: Piece)
    requires Listed(s) && k in s.pieces && p.cacheState == s.pieces[k].cacheState
    ensures Listed(Put(s, k, p))
  {
  }

  // ----- blocks -----

  /** inc_block_refcount(): one reference more, counted under its reason, if there is a
      buffer. */
  lemma ReferenceTaken(s: State, k: Key, i: nat, reason: Reason)
    requires HasBlock(s, k, i)
    ensures var t, b := IncRef(s, k, i, reason), s.pieces[k].blocks[i];
      if b.buf.None? then t == s
      else
        && OnlyRecord(s, t, k) && SameBut(s.pieces[k], t.pieces[k])
        && t.pieces[k].blocks == s.pieces[k].blocks[i := b.(
             refcount := b.refcount + 1,
             hashing := if reason == RefHashing then b.hashing + 1 else b.hashing,
             reading := if reason == RefReading then b.reading + 1 else b.reading,
             flushing := if reason == RefFlushing then b.flushing + 1 else b.flushing)]
  {
    hide Sum;
  }

  lemma ReferenceReturned(s: State, k: Key, i: nat, reason: Reason)
    requires HasBlock(s, k, i)
    requires var b := s.pieces[k].blocks[i]; b.refcount > 0 && Count(b, reason) > 0
    ensures var t, b := DecRef(s, k, i, reason), s.pieces[k].blocks[i];
      && OnlyRecord(s, t, k) && SameBut(s.pieces[k], t.pieces[k])
      && t.pieces[k].blocks == s.pieces[k].blocks[i := b.(
           refcount := b.refcount - 1,
           hashing := if reason == RefHashing then b.hashing - 1 else b.hashing,
           reading := if reason == RefReading then b.reading - 1 else b.reading,
           flushing := if reason == RefFlushing then b.flushing - 1 else b.flushing)]
  {
    hide Sum;
  }

  /** reclaim_block(): the reader's reference goes back, and then the piece may be freed. */
  lemma ReclaimGoesTo(s: State, k: Key, i: nat, size: nat)
    requires Inv(s) && HasBlock(s, k, i) && s.pieces[k].blocks[i].reading > 0 && size > 0
    ensures Inv(DecRef(s, k, i, RefReading)) && s.pieces[k].blocks[i].refcount > 0
    ensures FreedIfDone(DecRef(s, k, i, RefReading), Reclaim(s, k, i, size), k, size)
  {
    hide Sum, DecRef, MaybeFreePiece, Inv, FreedIfDone;
    RecordIsOk(s, k);
    assert BlockOk(s.pieces[k].blocks[i]);
    DecRefKeepsInv(s, k, i, RefReading);
    ReferenceReturned(s, k, i, RefReading);
    MaybeFreeGoesTo(DecRef(s, k, i, RefReading), k, size);
  }
}
