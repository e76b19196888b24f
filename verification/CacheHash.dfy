/** The locked regions of kick_hasher() on the cache: the blocks that are hashed next are
    referenced first, and the references are given back when the cursor moves. */
module CacheHash {
  import opened Options
  import opened CacheModel
  import opened CacheOps
  import opened CacheRead
  import CacheEvict
  import CacheSystem
  import BlockCache

  /** The record of a piece of which the n blocks from i on are being hashed. */
  function KickedPiece(p: Piece, i: nat, n: nat): Piece {
    Recount(p, Held(p.blocks, i, n, RefHashing)).(hashing := true)
  }

  lemma KickedIsOk(s: State, k: Key, i: nat, n: nat)
    requires Inv(s) && k in s.pieces && n > 0 && i < |s.pieces[k].blocks| && s.pieces[k].blocks[i].buf.Some?
    requires Inv(Hold(s, k, i, n, RefHashing))
    ensures Inv(Put(s, k, KickedPiece(s.pieces[k], i, n)))
    ensures !IsGhost(s.pieces[k].cacheState)
  {
    hide Sum, Held, Listed;
    var p := s.pieces[k];
    assert PieceOk(p);
    SumAtLeast(p.blocks, i, Cached);
    assert PieceOk(Hold(s, k, i, n, RefHashing).pieces[k]);
    PutKeepsInv(s, k, KickedPiece(p, i, n));
  }

  /** References the blocks in a row from the cursor on. */
  method HoldRun(c: BlockCache.Cache, k: Key, cursor: nat) returns (end: nat)
    requires c.Valid() && k in c.pieces && cursor <= |c.pieces[k].blocks|
    modifies c`pieces, c`pinnedBlocks
    ensures c.Valid() && cursor <= end <= |old(c.pieces)[k].blocks|
    ensures c.View() == Hold(old(c.View()), k, cursor, end - cursor, RefHashing)
    ensures forall i :: cursor <= i < end ==> old(c.pieces)[k].blocks[i].buf.Some?
    ensures end < |old(c.pieces)[k].blocks| ==> old(c.pieces)[k].blocks[end].buf.None?
  {
    hide Sum, Total, Held, Hold, IncRef, Listed, PieceOk;
    ghost var s, bs := c.View(), c.pieces[k].blocks;
    end := cursor;
    HoldNothing(s, k, cursor);
    while end < |c.pieces[k].blocks|
      invariant c.Valid() && cursor <= end <= |bs| && k in c.pieces && |c.pieces[k].blocks| == |bs|
      invariant c.View() == Hold(s, k, cursor, end - cursor, RefHashing)
      invariant forall i :: cursor <= i < end ==> bs[i].buf.Some?
    {
      NotHeldYet(s, k, cursor, end - cursor);
      if c.pieces[k].blocks[end].buf.None? {
        break;
      }
      HeldNext(s, k, cursor, end - cursor, RefHashing);
      HeldShape(s, k, cursor, end + 1 - cursor);
      ValidIsBalanced(c);
      var ok := c.IncBlockRefcount(k, end, RefHashing);
      if !ok {
        break;
      }
      end := end + 1;
    }
  }

  lemma HeldShape(s: State, k: Key, i: nat, n: nat)
    requires k in s.pieces
    ensures var t := Hold(s, k, i, n, RefHashing);
      k in t.pieces && |t.pieces[k].blocks| == |s.pieces[k].blocks|
  {
    hide Held, Sum;
  }

  lemma NotHeldYet(s: State, k: Key, i: nat, n: nat)
    requires k in s.pieces && i + n < |s.pieces[k].blocks|
    ensures HasBlock(Hold(s, k, i, n, RefHashing), k, i + n)
    ensures Hold(s, k, i, n, RefHashing).pieces[k].blocks[i + n] == s.pieces[k].blocks[i + n]
  {
    hide Held, Sum;
  }

  lemma HoldNothing(s: State, k: Key, i: nat)
    requires Inv(s) && k in s.pieces
    ensures Hold(s, k, i, 0, RefHashing) == s
  {
    hide Sum;
    assert Held(s.pieces[k].blocks, i, 0, RefHashing) == s.pieces[k].blocks by {
      hide Held;
    }
    Unchanged(s, k);
  }

  /** The first locked region: nothing happens without a hash, while another thread hashes
      the piece, behind its end, or if the next block is not cached. */
  method KickBegin(c: BlockCache.Cache, k: Key, pieceSize: nat) returns (cursor: nat, end: nat)
    requires c.Valid() && k in c.pieces && CacheEvict.CursorOk(c.pieces[k])
    modifies c`pieces, c`pinnedBlocks
    ensures c.Valid()
    ensures CacheSystem.Rearranged(old(c.View()), c.View())
    ensures end <= cursor ==> c.View() == old(c.View())
    ensures var p := old(c.pieces)[k];
      && (cursor < end ==>
            && p.hash.Some? && !p.hashing && p.hash.value < pieceSize
            && cursor == p.hash.value / DEFAULT_BLOCK_SIZE && end <= |p.blocks|
            && (forall i :: cursor <= i < end ==> p.blocks[i].buf.Some?)
            && (end < |p.blocks| ==> p.blocks[end].buf.None?)
            && c.View() == Put(old(c.View()), k, KickedPiece(p, cursor, end - cursor)))
      && (end <= cursor ==>
            || p.hash.None? || p.hashing || p.hash.value >= pieceSize
            || p.hash.value / DEFAULT_BLOCK_SIZE == |p.blocks|
            || p.blocks[p.hash.value / DEFAULT_BLOCK_SIZE].buf.None?)
  {
    hide Sum, Total, Held, Listed, PieceOk;
    ghost var s := c.View();
    var p := c.pieces[k];
    SameRearranges(s);
    cursor, end := 0, 0;
    if p.hash.None? || p.hashing || p.hash.value >= pieceSize {
      return;
    }
    cursor := p.hash.value / DEFAULT_BLOCK_SIZE;
    HoldNothing(s, k, cursor);
    end := HoldRun(c, k, cursor);
    if end == cursor {
      return;
    }
    KickedIsOk(s, k, cursor, end - cursor);
    ghost var t := c.View();
    p := c.pieces[k].(hashing := true);
    PutTwice(s, k, t.pieces[k], p);
    PutOk(s, k, p);
    ValidIsBalanced(c);
    c.Store(k, p, t);
    PutRearranges(s, k, p);
  }

  lemma SameRearranges(s: State)
    requires Inv(s)
    ensures CacheSystem.Rearranged(s, s)
  {
    hide Inv;
  }

  /** A record with the same buffers and jobs. */
  lemma PutRearranges(s: State, k: Key, p: Piece)
    requires k in s.pieces && Inv(Put(s, k, p)) && p.jobs == s.pieces[k].jobs && |p.blocks| == |s.pieces[k].blocks|
    requires forall i :: 0 <= i < |p.blocks| ==> CacheSystem.Same(s.pieces[k].blocks[i], p.blocks[i])
    ensures CacheSystem.Rearranged(s, Put(s, k, p))
  {
    hide Inv;
  }

  lemma PutOk(s: State, k: Key, p: Piece)
    requires Inv(Put(s, k, p))
    ensures PieceOk(p)
  {
    assert Put(s, k, p).pieces[k] == p;
  }

  /** The blocks with one reference less on the n blocks from i on. */
  function LetGo(bs: seq<Block>, i: nat, n: nat): (r: seq<Block>)
    ensures |r| == |bs|
    ensures forall j :: 0 <= j < |bs| ==> r[j] == if i <= j < i + n then LetGoOne(bs[j]) else bs[j]
  {
    if bs == [] then []
    else
      var last: nat := |bs| - 1;
      LetGo(bs[..last], i, n) + [if i <= last < i + n then LetGoOne(bs[last]) else bs[last]]
  }

  function LetGoOne(b: Block): Block {
    if b.refcount > 0 && b.hashing > 0 then Released(b, RefHashing) else b
  }

  /** The references taken for hashing are all returned. */
  lemma LetGoWhatWasHeld(bs: seq<Block>, i: nat, n: nat)
    ensures LetGo(Held(bs, i, n, RefHashing), i, n) == bs
  {
    hide LetGo, Held;
    forall j | 0 <= j < |bs|
      ensures LetGo(Held(bs, i, n, RefHashing), i, n)[j] == bs[j]
    {
      assert Released(Referenced(bs[j], RefHashing), RefHashing) == bs[j];
    }
  }

  lemma LetGoNext(s: State, k: Key, i: nat, n: nat)
    requires HasBlock(s, k, i + n) && s.pieces[k].blocks[i + n].refcount > 0 && s.pieces[k].blocks[i + n].hashing > 0
    ensures var t := Put(s, k, Recount(s.pieces[k], LetGo(s.pieces[k].blocks, i, n)));
      && t.pieces[k].blocks[i + n] == s.pieces[k].blocks[i + n]
      && DecRef(t, k, i + n, RefHashing) == Put(s, k, Recount(s.pieces[k], LetGo(s.pieces[k].blocks, i, n + 1)))
  {
    hide LetGo, Sum;
    var bs := s.pieces[k].blocks;
    assert LetGo(bs, i, n)[i + n := Released(bs[i + n], RefHashing)] == LetGo(bs, i, n + 1);
    PutTwice(s, k, Recount(s.pieces[k], LetGo(bs, i, n)), Recount(s.pieces[k], LetGo(bs, i, n + 1)));
  }

  /** Gives back the references of a run of blocks. */
  method LetGoRun(c: BlockCache.Cache, k: Key, cursor: nat, end: nat)
    requires c.Valid() && k in c.pieces && cursor <= end <= |c.pieces[k].blocks|
    requires forall i :: cursor <= i < end ==> c.pieces[k].blocks[i].buf.Some? && c.pieces[k].blocks[i].hashing > 0
    modifies c`pieces, c`pinnedBlocks
    ensures c.Valid()
    ensures var p := old(c.pieces)[k];
      c.View() == Put(old(c.View()), k, Recount(p, LetGo(p.blocks, cursor, end - cursor)))
  {
    hide Sum, Total, LetGo, Listed;
    ghost var s, p := c.View(), c.pieces[k];
    NothingLetGo(s, k, cursor);
    for n := 0 to end - cursor
      invariant c.Valid() && c.View() == Put(s, k, Recount(p, LetGo(p.blocks, cursor, n)))
    {
      BlockOkIn(s, k, cursor + n);
      LetGoNext(s, k, cursor, n);
      ValidIsBalanced(c);
      c.DecBlockRefcount(k, cursor + n, RefHashing);
    }
  }

  /** The second locked region, whatever happened to the piece in between: the cursor moves
      to offset, the piece is free for the next hasher, and the references go back. */
  method KickEnd(c: BlockCache.Cache, k: Key, cursor: nat, end: nat, offset: nat)
    requires c.Valid() && k in c.pieces && cursor <= end <= |c.pieces[k].blocks|
    requires c.pieces[k].hashing && c.pieces[k].hash.Some?
    requires forall i :: cursor <= i < end ==> c.pieces[k].blocks[i].buf.Some? && c.pieces[k].blocks[i].hashing > 0
    modifies c`pieces, c`pinnedBlocks
    ensures c.Valid()
    ensures CacheSystem.Rearranged(old(c.View()), c.View())
    ensures var p := old(c.pieces)[k];
      c.View() == Put(old(c.View()), k,
                      Recount(p.(hash := Some(offset), hashing := false), LetGo(p.blocks, cursor, end - cursor)))
  {
    hide Sum, Total, LetGo, Listed, PieceOk;
    ghost var s := c.View();
    var p := c.pieces[k].(hash := Some(offset), hashing := false);
    ghost var q := Recount(p, LetGo(p.blocks, cursor, end - cursor));
    MovedIsOk(s, k, p);
    ValidIsBalanced(c);
    c.Store(k, p, s);
    LetGoRun(c, k, cursor, end);
    PutTwice(s, k, p, q);
    PutRearranges(s, k, q);
  }

  lemma MovedIsOk(s: State, k: Key, p: Piece)
    requires Inv(s) && k in s.pieces && s.pieces[k].hash.Some? && s.pieces[k].hashing
    requires p == s.pieces[k].(hash := p.hash, hashing := false)
    ensures PieceOk(p)
  {
    hide Sum;
    assert PieceOk(s.pieces[k]);
  }

  lemma BlockOkIn(s: State, k: Key, i: nat)
    requires Inv(s) && HasBlock(s, k, i)
    ensures BlockOk(s.pieces[k].blocks[i])
  {
    assert PieceOk(s.pieces[k]);
  }

  lemma NothingLetGo(s: State, k: Key, i: nat)
    requires Inv(s) && k in s.pieces
    ensures Put(s, k, Recount(s.pieces[k], LetGo(s.pieces[k].blocks, i, 0))) == s
  {
    hide Sum;
    assert LetGo(s.pieces[k].blocks, i, 0) == s.pieces[k].blocks by {
      hide LetGo;
    }
    Unchanged(s, k);
  }
}
