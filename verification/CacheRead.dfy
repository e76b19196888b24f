/** copy_from_piece(): a read that is answered from the cache gets exactly the bytes asked
    for, also when they straddle two blocks. */
module CacheRead {
  import opened Options
  import opened CacheModel
  import opened CacheOps
  import opened CacheFill
  import BlockCache

  /** All bytes of a read are in the cache. */
  ghost predicate Readable(p: Piece, offset: nat, size: nat) {
    forall x :: offset <= x < offset + size ==> HasByte(p, x)
  }

  /** The buffers a read finds hold all of its bytes. */
  lemma BlocksHoldBytes(p: Piece, pieceSize: nat, offset: nat, size: nat)
    requires Sized(p, pieceSize) && offset + size <= pieceSize && size <= DEFAULT_BLOCK_SIZE
    requires offset / DEFAULT_BLOCK_SIZE < |p.blocks|
    requires TwoBlocks(offset, size) ==> offset / DEFAULT_BLOCK_SIZE + 1 < |p.blocks|
    requires CanAnswer(p, offset, size)
    ensures Readable(p, offset, size)
    ensures offset % DEFAULT_BLOCK_SIZE <= |p.blocks[offset / DEFAULT_BLOCK_SIZE].buf.value|
  {
    var i := offset / DEFAULT_BLOCK_SIZE;
    assert |p.blocks[i].buf.value| == BlockLength(pieceSize, i);
    forall x | offset <= x < offset + size
      ensures HasByte(p, x)
    {
      var j := x / DEFAULT_BLOCK_SIZE;
      assert j == i || (j == i + 1 && TwoBlocks(offset, size));
      assert |p.blocks[j].buf.value| == BlockLength(pieceSize, j);
    }
  }

  /** The bytes are those of the piece from offset on. */
  ghost predicate BytesOf(bytes: Bytes, p: Piece, offset: nat) {
    forall x :: 0 <= x < |bytes| ==> ByteOf(bytes, p, offset, x)
  }

  predicate ByteOf(bytes: Bytes, p: Piece, offset: nat, x: nat)
    requires x < |bytes|
  {
    HasByte(p, offset + x) && bytes[x] == ByteAt(p, offset + x)
  }

  /** One round of the copy: a part of one block. */
  lemma NextBytes(bytes: Bytes, p: Piece, offset: nat, block: nat, from: nat, n: nat)
    requires BytesOf(bytes, p, offset) && n > 0
    requires offset + |bytes| == block * DEFAULT_BLOCK_SIZE + from && from + n <= DEFAULT_BLOCK_SIZE
    requires HasByte(p, offset + |bytes| + n - 1)
    ensures block < |p.blocks| && p.blocks[block].buf.Some? && from + n <= |p.blocks[block].buf.value|
    ensures BytesOf(bytes + p.blocks[block].buf.value[from..from + n], p, offset)
  {
    assert (offset + |bytes| + n - 1) / DEFAULT_BLOCK_SIZE == block;
    var all := bytes + p.blocks[block].buf.value[from..from + n];
    forall x | 0 <= x < |all|
      ensures ByteOf(all, p, offset, x)
    {
      if x < |bytes| {
        assert ByteOf(bytes, p, offset, x) && all[x] == bytes[x];
      } else {
        var y := from + (x - |bytes|);
        assert offset + x == block * DEFAULT_BLOCK_SIZE + y;
        assert (offset + x) / DEFAULT_BLOCK_SIZE == block && (offset + x) % DEFAULT_BLOCK_SIZE == y;
      }
    }
  }

  lemma HitOneMore(bs: seq<Block>, i: nat, n: nat)
    requires i + n < |bs|
    ensures HitIn(bs, i, n)[i + n := HitIn(bs, i, n)[i + n].(hit := true)] == HitIn(bs, i, n + 1)
  {
    hide HitIn;
  }

  /** Marks the block it just read as hit. */
  method MarkHit(c: BlockCache.Cache, k: Key, i: nat, ghost s: State, ghost first: nat)
    requires c.Valid() && Inv(s) && k in s.pieces && first <= i < |s.pieces[k].blocks|
    requires c.View() == Hits(s, k, first, i - first)
    modifies c`pieces
    ensures c.Valid() && c.View() == Hits(s, k, first, i + 1 - first)
  {
    hide Sum, Total, HitIn, Listed, PieceOk;
    HitsKeepInv(s, k, first, i - first);
    HitsKeepInv(s, k, first, i + 1 - first);
    HitOneMore(s.pieces[k].blocks, first, i - first);
    HitSizes(s.pieces, k, first, i - first);
    HitSizes(s.pieces, k, first, i + 1 - first);
    var p := c.pieces[k];
    p := p.(blocks := p.blocks[i := p.blocks[i].(hit := true)]);
    assert c.pieces[k := p] == s.pieces[k := p];
    c.pieces := c.pieces[k := p];
  }

  lemma HitSizes(pieces: map<Key, Piece>, k: Key, i: nat, n: nat)
    requires k in pieces
    ensures TotalSizes(pieces[k := pieces[k].(blocks := HitIn(pieces[k].blocks, i, n))]) == TotalSizes(pieces)
  {
    hide Sum, Total;
    var bs := pieces[k].blocks;
    HitKeepsSum(bs, i, n, Clean);
    HitKeepsSum(bs, i, n, Dirty);
    HitKeepsSum(bs, i, n, Pinned);
    SizesUpdate(pieces, k, pieces[k].(blocks := HitIn(bs, i, n)));
  }

  lemma NoHits(s: State, k: Key, i: nat)
    requires k in s.pieces
    ensures Hits(s, k, i, 0) == s
  {
    assert HitIn(s.pieces[k].blocks, i, 0) == s.pieces[k].blocks;
    assert s.pieces[k].(blocks := s.pieces[k].blocks) == s.pieces[k];
    assert s.pieces[k := s.pieces[k]] == s.pieces;
  }

  /** The copy loop. */
  method CopyBytes(c: BlockCache.Cache, k: Key, offset: nat, size: nat) returns (bytes: Bytes)
    requires c.Valid() && k in c.pieces
    requires size <= DEFAULT_BLOCK_SIZE && Readable(c.pieces[k], offset, size)
    modifies c`pieces
    ensures c.Valid()
    ensures c.View() == Hits(old(c.View()), k, offset / DEFAULT_BLOCK_SIZE, BlocksRead(offset, size))
    ensures |bytes| == size && BytesOf(bytes, old(c.pieces)[k], offset)
  {
    hide Sum, Total, HitIn, Listed, PieceOk;
    ghost var s, p, first := c.View(), c.pieces[k], offset / DEFAULT_BLOCK_SIZE;
    var block, blockOffset, left := offset / DEFAULT_BLOCK_SIZE, offset % DEFAULT_BLOCK_SIZE, size;
    bytes := [];
    NoHits(s, k, first);
    while left > 0
      invariant c.Valid() && first <= block && c.View() == Hits(s, k, first, block - first)
      invariant 0 <= left && |bytes| + left == size && BytesOf(bytes, p, offset)
      invariant left > 0 ==> offset + |bytes| == block * DEFAULT_BLOCK_SIZE + blockOffset
      invariant block == first ==> left == size && blockOffset == offset % DEFAULT_BLOCK_SIZE
      invariant block == first + 1 ==> blockOffset == 0 && (left > 0 <==> TwoBlocks(offset, size))
      invariant block == first + 2 ==> left == 0 && TwoBlocks(offset, size)
      invariant block <= first + 2
      invariant block > first ==> size > 0
    {
      var toCopy := if DEFAULT_BLOCK_SIZE - blockOffset < left then DEFAULT_BLOCK_SIZE - blockOffset else left;
      NextBytes(bytes, p, offset, block, blockOffset, toCopy);
      assert c.pieces[k].blocks[block].buf == p.blocks[block].buf;
      bytes := bytes + c.pieces[k].blocks[block].buf.value[blockOffset..blockOffset + toCopy];
      MarkHit(c, k, block, s, first);
      left := left - toCopy;
      blockOffset := 0;
      block := block + 1;
    }
  }

  // ----- the references taken around the copy -----

  /** The blocks with one more reference on the n blocks from i on. */
  function Held(bs: seq<Block>, i: nat, n: nat, reason: Reason): (r: seq<Block>)
    ensures |r| == |bs|
    ensures forall j :: 0 <= j < |bs| ==> r[j] == if i <= j < i + n then Referenced(bs[j], reason) else bs[j]
  {
    if bs == [] then []
    else
      var last: nat := |bs| - 1;
      Held(bs[..last], i, n, reason) + [if i <= last < i + n then Referenced(bs[last], reason) else bs[last]]
  }

  function Hold(s: State, k: Key, i: nat, n: nat, reason: Reason): State
    requires k in s.pieces
  {
    Put(s, k, Recount(s.pieces[k], Held(s.pieces[k].blocks, i, n, reason)))
  }

  /** One more block is held. */
  lemma HeldNext(s: State, k: Key, i: nat, n: nat, reason: Reason)
    requires HasBlock(s, k, i + n) && s.pieces[k].blocks[i + n].buf.Some?
    ensures HasBlock(Hold(s, k, i, n, reason), k, i + n)
    ensures IncRef(Hold(s, k, i, n, reason), k, i + n, reason) == Hold(s, k, i, n + 1, reason)
  {
    hide Held, Sum;
    var bs := s.pieces[k].blocks;
    var held := Held(bs, i, n, reason);
    assert held[i + n := Referenced(held[i + n], reason)] == Held(bs, i, n + 1, reason);
    PutTwice(s, k, Recount(s.pieces[k], held), Recount(s.pieces[k], Held(bs, i, n + 1, reason)));
  }

  lemma HeldOne(s: State, k: Key, i: nat, reason: Reason)
    requires HasBlock(s, k, i) && s.pieces[k].blocks[i].buf.Some?
    ensures IncRef(s, k, i, reason) == Hold(s, k, i, 1, reason)
  {
    hide Held, Sum;
    var bs := s.pieces[k].blocks;
    assert bs[i := Referenced(bs[i], reason)] == Held(bs, i, 1, reason);
  }

  lemma PutTwice(s: State, k: Key, p: Piece, q: Piece)
    ensures Put(Put(s, k, p), k, q) == Put(s, k, q)
  {
    assert s.pieces[k := p][k := q] == s.pieces[k := q];
  }

  /** Giving back the first reference of a held range. */
  lemma GivenBack(s: State, k: Key, i: nat, n: nat, bs: seq<Block>, reason: Reason)
    requires Inv(s) && k in s.pieces && n > 0 && i + n <= |bs|
    requires forall j :: i <= j < i + n ==> bs[j].buf.Some?
    ensures var t := Put(s, k, Recount(s.pieces[k], Held(bs, i, n, reason)));
      && t.pieces[k].blocks[i].refcount > 0 && Count(t.pieces[k].blocks[i], reason) > 0
      && DecRef(t, k, i, reason) == Put(s, k, Recount(s.pieces[k], Held(bs, i + 1, n - 1, reason)))
  {
    hide Held, Sum, Listed, PieceOk;
    var held := Held(bs, i, n, reason);
    assert Released(Referenced(bs[i], reason), reason) == bs[i];
    assert held[i := Released(held[i], reason)] == Held(bs, i + 1, n - 1, reason);
    PutTwice(s, k, Recount(s.pieces[k], held), Recount(s.pieces[k], Held(bs, i + 1, n - 1, reason)));
  }

  lemma HeldNone(s: State, k: Key, bs: seq<Block>, reason: Reason)
    requires k in s.pieces
    ensures forall i: nat :: Put(s, k, Recount(s.pieces[k], Held(bs, i, 0, reason))) == Put(s, k, Recount(s.pieces[k], bs))
  {
    hide Sum;
    forall i: nat
      ensures Held(bs, i, 0, reason) == bs
    {
      hide Held;
    }
  }

  /** Hits and references do not get in each other's way. */
  lemma HitsOfHeld(s: State, k: Key, i: nat, n: nat, m: nat)
    requires Inv(s) && k in s.pieces && Inv(Hold(s, k, i, n, RefReading))
    ensures Hits(Hold(s, k, i, n, RefReading), k, i, m)
      == Put(s, k, Recount(s.pieces[k], Held(HitIn(s.pieces[k].blocks, i, m), i, n, RefReading)))
  {
    hide Held, HitIn, Sum, Listed, PieceOk;
    var bs := s.pieces[k].blocks;
    HitsKeepInv(Hold(s, k, i, n, RefReading), k, i, m);
    assert HitIn(Held(bs, i, n, RefReading), i, m) == Held(HitIn(bs, i, m), i, n, RefReading);
    PutTwice(s, k, Recount(s.pieces[k], Held(bs, i, n, RefReading)), Recount(s.pieces[k], Held(HitIn(bs, i, m), i, n, RefReading)));
  }

  /** Gives back the references taken on n blocks, in their order. */
  method GiveBack(c: BlockCache.Cache, k: Key, i: nat, n: nat, reason: Reason, ghost s: State, ghost bs: seq<Block>)
    requires c.Valid() && Inv(s) && k in s.pieces && i + n <= |bs| && reason != RefFlushing
    requires forall j :: i <= j < i + n ==> bs[j].buf.Some?
    requires c.View() == Put(s, k, Recount(s.pieces[k], Held(bs, i, n, reason)))
    modifies c`pieces, c`pinnedBlocks
    ensures c.Valid() && c.View() == Put(s, k, Recount(s.pieces[k], bs))
  {
    hide Sum, Total, Held, Listed;
    for m := 0 to n
      invariant c.Valid() && c.View() == Put(s, k, Recount(s.pieces[k], Held(bs, i + m, n - m, reason)))
    {
      GivenBack(s, k, i + m, n - m, bs, reason);
      c.DecBlockRefcount(k, i + m, reason);
    }
    HeldNone(s, k, bs, reason);
  }

  // ----- the whole operation -----

  lemma Unchanged(s: State, k: Key)
    requires Inv(s) && k in s.pieces
    ensures Put(s, k, Recount(s.pieces[k], s.pieces[k].blocks)) == s
  {
    hide Sum;
    assert Recount(s.pieces[k], s.pieces[k].blocks) == s.pieces[k];
    assert s.pieces[k := s.pieces[k]] == s.pieces;
  }

  /** The reference to the block stays with the reader, who gets a part of the buffer. */
  method Borrow(c: BlockCache.Cache, k: Key, i: nat, from: nat, size: nat, ghost s: State) returns (a: Answer)
    requires c.Valid() && Inv(s) && HasBlock(s, k, i) && s.pieces[k].blocks[i].buf.Some?
    requires from + size <= |s.pieces[k].blocks[i].buf.value|
    requires c.View() == IncRef(s, k, i, RefReading)
    modifies c`pieces
    ensures c.Valid()
    ensures c.View() == PutBlock(s, k, i, Referenced(s.pieces[k].blocks[i].(hit := true), RefReading))
    ensures a == Borrowed(s.pieces[k].blocks[i].buf.value[from..from + size])
  {
    hide Sum, Total, Listed, PieceOk, HitIn;
    ghost var t, bs := c.View(), s.pieces[k].blocks;
    NoHits(t, k, i);
    MarkHit(c, k, i, t, i);
    HitsKeepInv(t, k, i, 1);
    assert HitIn(t.pieces[k].blocks, i, 1) == bs[i := Referenced(bs[i].(hit := true), RefReading)];
    PutTwice(s, k, t.pieces[k], c.pieces[k]);
    a := Borrowed(c.pieces[k].blocks[i].buf.value[from..from + size]);
  }

  /** Copies with references held on the blocks read, and gives them back. */
  method CopyHeld(c: BlockCache.Cache, k: Key, offset: nat, size: nat, n: nat, ghost s: State) returns (bytes: Bytes)
    requires c.Valid() && Inv(s) && k in s.pieces
    requires size <= DEFAULT_BLOCK_SIZE && Readable(s.pieces[k], offset, size)
    requires offset / DEFAULT_BLOCK_SIZE + n <= |s.pieces[k].blocks|
    requires forall j :: offset / DEFAULT_BLOCK_SIZE <= j < offset / DEFAULT_BLOCK_SIZE + n ==> s.pieces[k].blocks[j].buf.Some?
    requires c.View() == Hold(s, k, offset / DEFAULT_BLOCK_SIZE, n, RefReading)
    modifies c`pieces, c`pinnedBlocks
    ensures c.Valid()
    ensures c.View() == Hits(s, k, offset / DEFAULT_BLOCK_SIZE, BlocksRead(offset, size))
    ensures |bytes| == size && BytesOf(bytes, s.pieces[k], offset)
  {
    hide Sum, Total, Listed, PieceOk, HitIn, Held;
    var i := offset / DEFAULT_BLOCK_SIZE;
    ghost var m := BlocksRead(offset, size);
    SameBytes(s.pieces[k], c.pieces[k], offset, size);
    bytes := CopyBytes(c, k, offset, size);
    HitsOfHeld(s, k, i, n, m);
    GiveBack(c, k, i, n, RefReading, s, HitIn(s.pieces[k].blocks, i, m));
    HitsKeepInv(s, k, i, m);
  }

  /** References do not change what a piece holds. */
  lemma SameBytes(p: Piece, q: Piece, offset: nat, size: nat)
    requires |p.blocks| == |q.blocks|
    requires forall j :: 0 <= j < |p.blocks| ==> p.blocks[j].buf == q.blocks[j].buf
    requires Readable(p, offset, size)
    ensures Readable(q, offset, size)
    ensures forall bytes :: |bytes| <= size && BytesOf(bytes, q, offset) ==> BytesOf(bytes, p, offset)
  {
    forall x | offset <= x < offset + size
      ensures HasByte(q, x)
    {
      assert HasByte(p, x);
    }
    forall bytes | |bytes| <= size && BytesOf(bytes, q, offset)
      ensures BytesOf(bytes, p, offset)
    {
      forall x | 0 <= x < |bytes|
        ensures ByteOf(bytes, p, offset, x)
      {
        assert ByteOf(bytes, q, offset, x);
      }
    }
  }

  method CopyFromPiece(c: BlockCache.Cache, k: Key, offset: nat, size: nat, forceCopy: bool, ghost pieceSize: nat)
      returns (a: Answer)
    requires c.Valid() && CanCopy(c.View(), k, offset, size)
    requires Sized(c.pieces[k], pieceSize) && offset + size <= pieceSize && size <= DEFAULT_BLOCK_SIZE
    modifies c
    ensures c.Valid() && c.ghostSize == old(c.ghostSize)
    ensures c.View() == CacheFill.CopyFromPiece(old(c.View()), k, offset, size, forceCopy, c.ghostSize)
    ensures a.Miss? <==> !CanAnswer(old(c.pieces)[k], offset, size)
    ensures a.Borrowed? <==> CanAnswer(old(c.pieces)[k], offset, size) && !TwoBlocks(offset, size) && !forceCopy
    ensures !a.Miss? ==> |a.bytes| == size && BytesOf(a.bytes, old(c.pieces)[k], offset)
  {
    hide Sum, Total, Listed, PieceOk, HitIn, Held, Sized;
    ghost var s := c.View();
    var i, two := offset / DEFAULT_BLOCK_SIZE, TwoBlocks(offset, size);
    ValidIsBalanced(c);
    var ok := c.IncBlockRefcount(k, i, RefReading);
    if !ok {
      return Miss;
    }
    HeldOne(s, k, i, RefReading);
    if !two && !forceCopy {
      BlocksHoldBytes(s.pieces[k], pieceSize, offset, size);
      BorrowedBytes(s.pieces[k], offset, size);
      a := Borrow(c, k, i, offset % DEFAULT_BLOCK_SIZE, size, s);
      return;
    }
    if two {
      ValidIsBalanced(c);
      ok := c.IncBlockRefcount(k, i + 1, RefReading);
      if !ok {
        GiveBack(c, k, i, 1, RefReading, s, s.pieces[k].blocks);
        Unchanged(s, k);
        var _ := c.MaybeFreePiece(k);
        return Miss;
      }
      HeldNext(s, k, i, 1, RefReading);
    }
    BlocksHoldBytes(s.pieces[k], pieceSize, offset, size);
    var bytes := CopyHeld(c, k, offset, size, if two then 2 else 1, s);
    var _ := c.MaybeFreePiece(k);
    a := Copied(bytes);
  }

  lemma ValidIsBalanced(c: BlockCache.Cache)
    requires c.Valid()
    ensures c.Balanced()
  {
  }

  lemma BorrowedBytes(p: Piece, offset: nat, size: nat)
    requires Readable(p, offset, size) && !TwoBlocks(offset, size) && size <= DEFAULT_BLOCK_SIZE
    requires offset / DEFAULT_BLOCK_SIZE < |p.blocks| && p.blocks[offset / DEFAULT_BLOCK_SIZE].buf.Some?
    requires size == 0 ==> offset % DEFAULT_BLOCK_SIZE <= |p.blocks[offset / DEFAULT_BLOCK_SIZE].buf.value|
    ensures var buf, o := p.blocks[offset / DEFAULT_BLOCK_SIZE].buf.value, offset % DEFAULT_BLOCK_SIZE;
      o + size <= |buf| && BytesOf(buf[o..o + size], p, offset)
  {
    var i, o := offset / DEFAULT_BLOCK_SIZE, offset % DEFAULT_BLOCK_SIZE;
    assert offset == i * DEFAULT_BLOCK_SIZE + o;
    if size > 0 {
      assert HasByte(p, offset + size - 1);
      assert (offset + size - 1) / DEFAULT_BLOCK_SIZE == i;
    }
    var bytes := p.blocks[i].buf.value[o..o + size];
    forall x | 0 <= x < size
      ensures ByteOf(bytes, p, offset, x)
    {
      assert (offset + x) / DEFAULT_BLOCK_SIZE == i && (offset + x) % DEFAULT_BLOCK_SIZE == o + x;
    }
  }
}
