/** The data of the disk block cache: blocks, pieces, the ARC lists, and the counters that
    have to agree with them. */
module CacheModel {
  import opened Options

  const DEFAULT_BLOCK_SIZE: nat := 0x4000

  /** What a block buffer holds. */
  type Bytes = string

  /** A piece of a storage. */
  datatype Key = Key(storage: nat, piece: nat)

  /** cached_block_entry. hashing, reading and flushing say what the references are for. */
  datatype Block = Block(buf: Option<Bytes>, dirty: bool, pending: bool, hit: bool,
                         refcount: nat, hashing: nat, reading: nat, flushing: nat)

  datatype Reason = RefHashing | RefReading | RefFlushing

  const EMPTY_BLOCK := Block(None, false, false, false, 0, 0, 0, 0)

  // the lists a piece can be in, in the order that cache_state_t gives them
  const WRITE_LRU: nat := 1
  const VOLATILE_READ_LRU: nat := 2
  const READ_LRU1: nat := 3
  const READ_LRU1_GHOST: nat := 4
  const READ_LRU2: nat := 5
  const READ_LRU2_GHOST: nat := 6
  const NUM_LRUS: nat := 7

  /** A write that waits at its piece until its block was flushed. */
  datatype Job = Job(id: nat, block: nat)

  /** cached_piece_entry. hash is the offset of the hash cursor, if there is a hash. */
  datatype Piece = Piece(blocks: seq<Block>, numDirty: nat, numBlocks: nat, refcount: nat, pinned: nat,
                         hashing: bool, hashingDone: bool, hash: Option<nat>,
                         markedForDeletion: bool, markedForEviction: bool,
                         cacheState: nat, pieceRefcount: nat, outstandingRead: bool,
                         jobs: seq<Job>, readJobs: seq<nat>)

  datatype CacheOp = CacheMiss | GhostHitLru1 | GhostHitLru2

  datatype State = State(pieces: map<Key, Piece>, lru: seq<seq<Key>>, lastOp: CacheOp)

  // ----- counting blocks -----

  /** What the counters count; Loose are the clean blocks nobody refers to, and Busy the
      dirty ones somebody does. */
  datatype Measure = Cached | Dirty | Clean | Refs | Pinned | Loose | Busy

  function Weigh(b: Block, m: Measure): nat {
    match m
    case Cached => if b.buf.Some? then 1 else 0
    case Dirty => if b.buf.Some? && b.dirty then 1 else 0
    case Clean => if b.buf.Some? && !b.dirty then 1 else 0
    case Refs => b.refcount
    case Pinned => if b.buf.Some? && b.refcount > 0 then 1 else 0
    case Loose => if b.buf.Some? && !b.dirty && b.refcount == 0 then 1 else 0
    case Busy => if b.buf.Some? && b.dirty && b.refcount > 0 then 1 else 0
  }

  function Sum(bs: seq<Block>, m: Measure): nat {
    if bs == [] then 0 else Sum(bs[..|bs| - 1], m) + Weigh(bs[|bs| - 1], m)
  }

  lemma {:induction false} SumUpdate(bs: seq<Block>, i: nat, b: Block, m: Measure)
    requires i < |bs|
    ensures Sum(bs[i := b], m) + Weigh(bs[i], m) == Sum(bs, m) + Weigh(b, m)
  {
    var n := |bs| - 1;
    if i < n {
      SumUpdate(bs[..n], i, b, m);
      assert bs[i := b][..n] == bs[..n][i := b];
    } else {
      assert bs[i := b][..n] == bs[..n];
    }
  }

  lemma {:induction false} SumAtLeast(bs: seq<Block>, i: nat, m: Measure)
    requires i < |bs|
    ensures Weigh(bs[i], m) <= Sum(bs, m)
  {
    var n := |bs| - 1;
    if i < n {
      SumAtLeast(bs[..n], i, m);
      assert bs[..n][i] == bs[i];
    }
  }

  /** Cached blocks are the dirty and the clean ones. */
  lemma {:induction false} SumOfKinds(bs: seq<Block>)
    ensures Sum(bs, Cached) == Sum(bs, Dirty) + Sum(bs, Clean)
  {
    if bs != [] {
      SumOfKinds(bs[..|bs| - 1]);
    }
  }

  lemma {:induction false} SumIsZero(bs: seq<Block>, m: Measure)
    requires Sum(bs, m) == 0
    ensures forall i :: 0 <= i < |bs| ==> Weigh(bs[i], m) == 0
  {
    forall i | 0 <= i < |bs|
      ensures Weigh(bs[i], m) == 0
    {
      SumAtLeast(bs, i, m);
    }
  }

  lemma {:induction false} ZeroSum(bs: seq<Block>, m: Measure)
    requires forall i :: 0 <= i < |bs| ==> Weigh(bs[i], m) == 0
    ensures Sum(bs, m) == 0
  {
    if bs != [] {
      ZeroSum(bs[..|bs| - 1], m);
    }
  }

  /** The same over all pieces. */
  ghost function Total(pieces: map<Key, Piece>, m: Measure): nat
    decreases |pieces|
  {
    if pieces == map[] then 0
    else
      var k :| k in pieces;
      Sum(pieces[k].blocks, m) + Total(pieces - {k}, m)
  }

  lemma {:induction false} TotalRemove(pieces: map<Key, Piece>, k: Key, m: Measure)
    requires k in pieces
    ensures Total(pieces, m) == Sum(pieces[k].blocks, m) + Total(pieces - {k}, m)
    decreases |pieces|
  {
    var first :| first in pieces && Total(pieces, m) == Sum(pieces[first].blocks, m) + Total(pieces - {first}, m);
    if first != k {
      TotalRemove(pieces - {first}, k, m);
      TotalRemove(pieces - {k}, first, m);
      assert pieces - {first} - {k} == pieces - {k} - {first};
    }
  }

  lemma TotalUpdate(pieces: map<Key, Piece>, k: Key, p: Piece, m: Measure)
    requires k in pieces
    ensures Total(pieces[k := p], m) + Sum(pieces[k].blocks, m) == Total(pieces, m) + Sum(p.blocks, m)
  {
    TotalRemove(pieces, k, m);
    TotalRemove(pieces[k := p], k, m);
    assert pieces[k := p] - {k} == pieces - {k};
  }

  lemma TotalAdd(pieces: map<Key, Piece>, k: Key, p: Piece, m: Measure)
    requires k !in pieces
    ensures Total(pieces[k := p], m) == Total(pieces, m) + Sum(p.blocks, m)
  {
    TotalRemove(pieces[k := p], k, m);
    assert pieces[k := p] - {k} == pieces;
  }

  /** The global read, write and pinned counts. */
  datatype Sizes = Sizes(read: int, write: int, pinned: int)

  ghost function TotalSizes(pieces: map<Key, Piece>): Sizes {
    Sizes(Total(pieces, Clean), Total(pieces, Dirty), Total(pieces, Pinned))
  }

  function PieceSizes(bs: seq<Block>): Sizes {
    Sizes(Sum(bs, Clean), Sum(bs, Dirty), Sum(bs, Pinned))
  }

  lemma SizesUpdate(pieces: map<Key, Piece>, k: Key, p: Piece)
    requires k in pieces
    ensures var a, b := TotalSizes(pieces), TotalSizes(pieces[k := p]);
      var x, y := PieceSizes(pieces[k].blocks), PieceSizes(p.blocks);
      && b.read == a.read - x.read + y.read
      && b.write == a.write - x.write + y.write
      && b.pinned == a.pinned - x.pinned + y.pinned
  {
    TotalUpdate(pieces, k, p, Clean);
    TotalUpdate(pieces, k, p, Dirty);
    TotalUpdate(pieces, k, p, Pinned);
  }

  lemma SizesRemove(pieces: map<Key, Piece>, k: Key)
    requires k in pieces
    ensures var a, b, x := TotalSizes(pieces), TotalSizes(pieces - {k}), PieceSizes(pieces[k].blocks);
      b.read == a.read - x.read && b.write == a.write - x.write && b.pinned == a.pinned - x.pinned
  {
    TotalRemove(pieces, k, Clean);
    TotalRemove(pieces, k, Dirty);
    TotalRemove(pieces, k, Pinned);
  }

  // ----- what is well-formed -----

  /** A block without a buffer is not in use; a block being written out is dirty and
      referenced once for that; every reference has a reason. */
  predicate BlockOk(b: Block) {
    && (b.buf.None? ==> !b.dirty && !b.pending && b.refcount == 0)
    && (b.pending ==> b.dirty)
    && b.flushing == (if b.pending then 1 else 0)
    && b.refcount == b.hashing + b.reading + b.flushing
  }

  predicate BlocksOk(bs: seq<Block>) {
    forall i :: 0 <= i < |bs| ==> BlockOk(bs[i])
  }

  /** The counters of a piece agree with its blocks. */
  predicate Counted(p: Piece) {
    && p.numDirty == Sum(p.blocks, Dirty)
    && p.numBlocks == Sum(p.blocks, Cached)
    && p.refcount == Sum(p.blocks, Refs)
    && p.pinned == Sum(p.blocks, Pinned)
  }

  function Recount(p: Piece, bs: seq<Block>): (r: Piece)
    ensures Counted(r) && r.blocks == bs
  {
    p.(blocks := bs, numDirty := Sum(bs, Dirty), numBlocks := Sum(bs, Cached),
       refcount := Sum(bs, Refs), pinned := Sum(bs, Pinned))
  }

  predicate OkToEvict(p: Piece, ignoreHash: bool) {
    && p.refcount == 0
    && p.pieceRefcount == 0
    && !p.hashing
    && p.readJobs == []
    && !p.outstandingRead
    && (ignoreHash || p.hash.None? || p.hash.value == 0)
  }

  predicate IsGhost(state: nat) {
    state == READ_LRU1_GHOST || state == READ_LRU2_GHOST
  }

  /** What check_invariant() asks of a piece; and a piece in a ghost list is not in use. */
  predicate PieceOk(p: Piece) {
    && BlocksOk(p.blocks)
    && Counted(p)
    && WRITE_LRU <= p.cacheState < NUM_LRUS
    && (p.numDirty > 0 ==> p.cacheState == WRITE_LRU)
    && (IsGhost(p.cacheState) ==> p.numBlocks == 0 && OkToEvict(p, false))
  }

  predicate NoDuplicates(s: seq<Key>) {
    forall i, j :: 0 <= i < j < |s| ==> s[i] != s[j]
  }

  /** Every piece is in the list of its state, once, and in no other list. */
  ghost predicate Listed(s: State) {
    && |s.lru| == NUM_LRUS
    && (forall i, k :: 0 <= i < NUM_LRUS && k in s.lru[i] ==> k in s.pieces && s.pieces[k].cacheState == i)
    && (forall i :: 0 <= i < NUM_LRUS ==> NoDuplicates(s.lru[i]))
    && (forall k :: k in s.pieces ==> s.pieces[k].cacheState < NUM_LRUS && k in s.lru[s.pieces[k].cacheState])
  }

  ghost predicate Inv(s: State) {
    Listed(s) && forall k :: k in s.pieces ==> PieceOk(s.pieces[k])
  }

  // ----- moving pieces between the lists -----

  function Without(s: seq<Key>, k: Key): (r: seq<Key>)
    ensures k !in s ==> r == s
    ensures forall x :: x in r ==> x in s
    ensures forall x :: x in s && x != k ==> x in r
  {
    if s == [] then [] else if s[0] == k then s[1..] else [s[0]] + Without(s[1..], k)
  }

  lemma {:induction false} WithoutOnce(s: seq<Key>, k: Key)
    requires NoDuplicates(s)
    ensures NoDuplicates(Without(s, k)) && k !in Without(s, k)
    ensures k in s ==> |Without(s, k)| == |s| - 1
  {
    if s != [] && s[0] != k {
      WithoutOnce(s[1..], k);
      var r := Without(s[1..], k);
      assert s[0] !in s[1..];
      assert s[0] !in r;
    }
  }

  function Unlink(s: State, k: Key): seq<seq<Key>>
    requires k in s.pieces && s.pieces[k].cacheState < |s.lru|
  {
    var q := s.pieces[k].cacheState;
    s.lru[q := Without(s.lru[q], k)]
  }

  /** Puts k, whose record becomes p, at the end of list q. */
  function Move(s: State, k: Key, p: Piece, q: nat): State
    requires k in s.pieces && s.pieces[k].cacheState < |s.lru| && q < |s.lru|
  {
    var lru := Unlink(s, k);
    s.(pieces := s.pieces[k := p.(cacheState := q)], lru := lru[q := lru[q] + [k]])
  }

  /** Replaces the record of k; the piece stays where it is. */
  function Put(s: State, k: Key, p: Piece): State {
    s.(pieces := s.pieces[k := p])
  }

  function Remove(s: State, k: Key): State
    requires k in s.pieces && s.pieces[k].cacheState < |s.lru|
  {
    s.(pieces := s.pieces - {k}, lru := Unlink(s, k))
  }

  function Add(s: State, k: Key, p: Piece): State
    requires p.cacheState < |s.lru|
  {
    s.(pieces := s.pieces[k := p], lru := s.lru[p.cacheState := s.lru[p.cacheState] + [k]])
  }

  lemma RemoveKeepsInv(s: State, k: Key)
    requires Inv(s) && k in s.pieces
    ensures Inv(Remove(s, k))
  {
    hide Sum, PieceOk;
    WithoutOnce(s.lru[s.pieces[k].cacheState], k);
  }

  lemma AddKeepsInv(s: State, k: Key, p: Piece)
    requires Inv(s) && k !in s.pieces && PieceOk(p)
    ensures Inv(Add(s, k, p))
  {
    hide Sum;
    var t := Add(s, k, p);
    assert k !in s.lru[p.cacheState];
    forall i | 0 <= i < NUM_LRUS
      ensures NoDuplicates(t.lru[i])
    {
      assert NoDuplicates(s.lru[i]);
    }
  }

  lemma PutKeepsInv(s: State, k: Key, p: Piece)
    requires Inv(s) && k in s.pieces && PieceOk(p) && p.cacheState == s.pieces[k].cacheState
    ensures Inv(Put(s, k, p))
  {
  }

  lemma MoveKeepsInv(s: State, k: Key, p: Piece, q: nat)
    requires Inv(s) && k in s.pieces && q < NUM_LRUS && PieceOk(p.(cacheState := q))
    ensures Inv(Move(s, k, p, q))
  {
    hide Sum, Without;
    RemoveKeepsInv(s, k);
    AddKeepsInv(Remove(s, k), k, p.(cacheState := q));
    assert Move(s, k, p, q).pieces == Add(Remove(s, k), k, p.(cacheState := q)).pieces;
  }
}
