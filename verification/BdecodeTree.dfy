/** Where the nodes of a tree are in its token array, and that the part of the buffer a
    node covers decodes to that node again. */
module BdecodeTree {
  import opened Options
  import opened Numbers
  import opened Grammar
  import opened Bdecode
  import opened BdecodeReference

  function Length(items: Nodes): nat {
    match items
    case Nil => 0
    case Cons(_, rest) => 1 + Length(rest)
  }

  function Nth(items: Nodes, k: nat): Node
    requires k < Length(items)
  {
    if k == 0 then items.head else Nth(items.tail, k - 1)
  }

  /** The tokens and the bytes of the first k items. */
  function CountBefore(items: Nodes, k: nat): nat
    requires k <= Length(items)
  {
    if k == 0 then 0 else Count(items.head) + CountBefore(items.tail, k - 1)
  }

  function BytesBefore(items: Nodes, k: nat): nat
    requires k <= Length(items)
  {
    if k == 0 then 0 else |Print(items.head)| + BytesBefore(items.tail, k - 1)
  }

  function Items(n: Node): Nodes {
    match n
    case Integer(_) => Nil
    case Str(_, _) => Nil
    case List(items) => items
    case Dict(items) => items
  }

  predicate IsContainer(n: Node) {
    n.List? || n.Dict?
  }

  /** The tokens from i on list the tree n, which starts at offset, and the token behind
      them starts where n ends. */
  ghost predicate ListsAt(ts: seq<Token>, i: nat, n: Node, offset: nat) {
    && i + Count(n) < |ts|
    && ts[i..i + Count(n)] == Tokens(n, offset)
    && ts[i + Count(n)].offset == offset + |Print(n)|
  }

  /** The same for the items of a container that are left, up to its end token. */
  ghost predicate ListsItemsAt(ts: seq<Token>, i: nat, items: Nodes, offset: nat) {
    && i + CountAll(items) < |ts|
    && ts[i..i + CountAll(items)] == TokensAll(items, offset)
    && ts[i + CountAll(items)] == Token(offset + |PrintAll(items)|, 1, EndToken, 0)
  }

  lemma ListingListsRoot(n: Node)
    ensures ListsAt(Listing(n), 0, n, 0)
  {
  }

  lemma TokensHead(n: Node, offset: nat)
    ensures var t := Tokens(n, offset)[0];
      && t.offset == offset && t.next == Count(n) && t.kind != EndToken
      && (t.kind == DictToken <==> n.Dict?)
      && (t.kind == ListToken <==> n.List?)
      && (t.kind == StringToken <==> n.Str?)
      && (n.Str? && n.prefix != "" ==> t.header == |n.prefix| - 1)
  {
    match n
    case Integer(_) =>
    case Str(_, _) =>
    case List(items) => assert Tokens(n, offset) == Container(ListToken, items, offset);
    case Dict(items) => assert Tokens(n, offset) == Container(DictToken, items, offset);
  }

  lemma FirstToken(ts: seq<Token>, i: nat, n: Node, offset: nat)
    requires ListsAt(ts, i, n, offset)
    ensures ts[i] == Tokens(n, offset)[0]
    ensures ts[i].offset == offset && ts[i].next == Count(n) && ts[i].kind != EndToken
    ensures ts[i].kind == DictToken <==> n.Dict?
    ensures ts[i].kind == ListToken <==> n.List?
    ensures ts[i].kind == StringToken <==> n.Str?
  {
    assert ts[i] == ts[i..i + Count(n)][0];
    TokensHead(n, offset);
  }

  lemma ContainerParts(kind: Kind, items: Nodes, offset: nat)
    ensures var all := Container(kind, items, offset);
      && all[1..1 + CountAll(items)] == TokensAll(items, offset + 1)
      && all[1 + CountAll(items)] == Token(offset + 1 + |PrintAll(items)|, 1, EndToken, 0)
  {
  }

  lemma Subslice(ts: seq<Token>, lo: nat, hi: nat, from: nat, to: nat)
    requires lo <= hi <= |ts| && from <= to <= hi - lo
    ensures ts[lo + from..lo + to] == ts[lo..hi][from..to]
  {
    var a, b := ts[lo + from..lo + to], ts[lo..hi][from..to];
    assert |a| == |b| == to - from;
    forall k | 0 <= k < |a|
      ensures a[k] == b[k]
    {
      assert a[k] == ts[lo + from + k];
      assert b[k] == ts[lo..hi][from + k] == ts[lo + (from + k)];
    }
  }

  lemma ContainerLists(ts: seq<Token>, i: nat, n: Node, offset: nat)
    requires ListsAt(ts, i, n, offset) && IsContainer(n)
    ensures ListsItemsAt(ts, i + 1, Items(n), offset + 1)
  {
    var items := Items(n);
    var kind := if n.List? then ListToken else DictToken;
    var all := ts[i..i + Count(n)];
    assert all == Container(kind, items, offset);
    ContainerParts(kind, items, offset);
    Subslice(ts, i, i + Count(n), 1, 1 + CountAll(items));
    assert ts[i + 1 + CountAll(items)] == all[1 + CountAll(items)];
  }

  lemma HeadLists(ts: seq<Token>, i: nat, items: Nodes, offset: nat)
    requires ListsItemsAt(ts, i, items, offset) && items.Cons?
    ensures ListsAt(ts, i, items.head, offset)
    ensures ListsItemsAt(ts, i + Count(items.head), items.tail, offset + |Print(items.head)|)
  {
    hide Print, Tokens, Count;
    var n, rest := items.head, items.tail;
    var all := ts[i..i + CountAll(items)];
    assert all == Tokens(n, offset) + TokensAll(rest, offset + |Print(n)|);
    assert ts[i..i + Count(n)] == all[..Count(n)];
    assert ts[i + Count(n)..i + Count(n) + CountAll(rest)] == all[Count(n)..];
    if rest.Cons? {
      var off := offset + |Print(n)|;
      assert TokensAll(rest, off) == Tokens(rest.head, off) + TokensAll(rest.tail, off + |Print(rest.head)|);
      assert ts[i + Count(n)] == all[Count(n)..][0];
      TokensHead(rest.head, off);
    } else {
      assert PrintAll(items) == Print(n) + "";
    }
  }

  lemma {:induction false} NthLists(ts: seq<Token>, i: nat, items: Nodes, offset: nat, k: nat)
    requires ListsItemsAt(ts, i, items, offset) && k < Length(items)
    ensures ListsAt(ts, i + CountBefore(items, k), Nth(items, k), offset + BytesBefore(items, k))
    decreases k
  {
    hide ListsAt, Tokens, Print;
    HeadLists(ts, i, items, offset);
    if k > 0 {
      NthLists(ts, i + Count(items.head), items.tail, offset + |Print(items.head)|, k - 1);
    }
  }

  lemma {:induction false} CountBeforeAll(items: Nodes)
    ensures CountBefore(items, Length(items)) == CountAll(items)
    ensures BytesBefore(items, Length(items)) == |PrintAll(items)|
  {
    if items.Cons? {
      CountBeforeAll(items.tail);
    }
  }

  lemma {:induction false} CountBeforeNext(items: Nodes, k: nat)
    requires k < Length(items)
    ensures CountBefore(items, k + 1) == CountBefore(items, k) + Count(Nth(items, k))
    ensures BytesBefore(items, k + 1) == BytesBefore(items, k) + |Print(Nth(items, k))|
    decreases k
  {
    if k > 0 {
      CountBeforeNext(items.tail, k - 1);
    }
  }

  /** The link of every item leads to the next item, and that of the last one to the end
      token of the container. */
  lemma NextLeadsToSibling(ts: seq<Token>, i: nat, n: Node, offset: nat, k: nat)
    requires ListsAt(ts, i, n, offset) && IsContainer(n) && k < Length(Items(n))
    ensures var at := i + 1 + CountBefore(Items(n), k);
      && at < |ts| && ts[at].kind != EndToken
      && at + ts[at].next == i + 1 + CountBefore(Items(n), k + 1)
      && at + ts[at].next < |ts|
      && (ts[at + ts[at].next].kind == EndToken <==> k + 1 == Length(Items(n)))
  {
    var items := Items(n);
    ContainerLists(ts, i, n, offset);
    ItemStarts(ts, i + 1, items, offset + 1, k);
    CountBeforeNext(items, k);
    if k + 1 < Length(items) {
      ItemStarts(ts, i + 1, items, offset + 1, k + 1);
    } else {
      CountBeforeAll(items);
    }
  }

  lemma ItemStarts(ts: seq<Token>, i: nat, items: Nodes, offset: nat, k: nat)
    requires ListsItemsAt(ts, i, items, offset) && k < Length(items)
    ensures var at := i + CountBefore(items, k);
      && at + Count(Nth(items, k)) < |ts| && ts[at].kind != EndToken && ts[at].next == Count(Nth(items, k))
  {
    NthLists(ts, i, items, offset, k);
    FirstToken(ts, i + CountBefore(items, k), Nth(items, k), offset + BytesBefore(items, k));
  }

  // ----- every node, named by the way to it from the root -----

  predicate HasPath(n: Node, path: seq<nat>)
    decreases |path|
  {
    path == [] || (path[0] < Length(Items(n)) && HasPath(Nth(Items(n), path[0]), path[1..]))
  }

  function NodeAt(n: Node, path: seq<nat>): Node
    requires HasPath(n, path)
    decreases |path|
  {
    if path == [] then n else NodeAt(Nth(Items(n), path[0]), path[1..])
  }

  function IndexAt(n: Node, path: seq<nat>): nat
    requires HasPath(n, path)
    decreases |path|
  {
    if path == [] then 0
    else 1 + CountBefore(Items(n), path[0]) + IndexAt(Nth(Items(n), path[0]), path[1..])
  }

  function OffsetAt(n: Node, path: seq<nat>): nat
    requires HasPath(n, path)
    decreases |path|
  {
    if path == [] then 0
    else 1 + BytesBefore(Items(n), path[0]) + OffsetAt(Nth(Items(n), path[0]), path[1..])
  }

  lemma ItemIsListed(ts: seq<Token>, i: nat, n: Node, offset: nat, k: nat)
    requires ListsAt(ts, i, n, offset) && IsContainer(n) && k < Length(Items(n))
    ensures ListsAt(ts, i + 1 + CountBefore(Items(n), k), Nth(Items(n), k), offset + 1 + BytesBefore(Items(n), k))
  {
    ContainerLists(ts, i, n, offset);
    NthLists(ts, i + 1, Items(n), offset + 1, k);
  }

  lemma {:induction false} NodeIsListed(ts: seq<Token>, i: nat, n: Node, offset: nat, path: seq<nat>)
    requires ListsAt(ts, i, n, offset) && HasPath(n, path)
    ensures ListsAt(ts, i + IndexAt(n, path), NodeAt(n, path), offset + OffsetAt(n, path))
    decreases |path|
  {
    hide ListsAt, Tokens, Print;
    if path != [] {
      var items, k, rest := Items(n), path[0], path[1..];
      var i', offset' := i + 1 + CountBefore(items, k), offset + 1 + BytesBefore(items, k);
      assert IsContainer(n);
      ItemIsListed(ts, i, n, offset, k);
      NodeIsListed(ts, i', Nth(items, k), offset', rest);
      assert i + IndexAt(n, path) == i' + IndexAt(Nth(items, k), rest);
      assert offset + OffsetAt(n, path) == offset' + OffsetAt(Nth(items, k), rest);
    }
  }

  /** An item of a well-formed container is well-formed, smaller, and printed inside it. */
  lemma {:induction false} ItemIsSmaller(buf: string, pos: nat, items: Nodes, slot: Slot, k: nat)
    requires AllOk(items, slot) && At(buf, pos, PrintAll(items)) && k < Length(items)
    ensures Ok(Nth(items, k)) && Height(Nth(items, k)) <= HeightAll(items) && Count(Nth(items, k)) <= CountAll(items)
    ensures At(buf, pos + BytesBefore(items, k), Print(Nth(items, k)))
    decreases k
  {
    hide At, Ok, Print, Height, Count;
    AtSplit(buf, pos, Print(items.head), PrintAll(items.tail));
    if k > 0 {
      ItemIsSmaller(buf, pos + |Print(items.head)|, items.tail, NextSlot(slot), k - 1);
    }
  }

  lemma {:induction false} NodeIsSmaller(buf: string, pos: nat, n: Node, path: seq<nat>)
    requires Ok(n) && At(buf, pos, Print(n)) && HasPath(n, path)
    ensures Ok(NodeAt(n, path)) && Height(NodeAt(n, path)) <= Height(n) && Count(NodeAt(n, path)) <= Count(n)
    ensures At(buf, pos + OffsetAt(n, path), Print(NodeAt(n, path)))
    decreases |path|
  {
    hide At;
    if path != [] {
      var items, k := Items(n), path[0];
      AtSplit(buf, pos, if n.List? then "l" else "d", PrintAll(items) + "e");
      AtSplit(buf, pos + 1, PrintAll(items), "e");
      ItemIsSmaller(buf, pos + 1, items, FirstSlot(n), k);
      NodeIsSmaller(buf, pos + 1 + BytesBefore(items, k), Nth(items, k), path[1..]);
    }
  }

  /** bdecode_node::data_section(): the bytes between a token and the one its link leads to. */
  function DataSection(buf: string, ts: seq<Token>, i: nat): string
    requires i < |ts| && i + ts[i].next < |ts|
    requires ts[i].offset <= ts[i + ts[i].next].offset <= |buf|
  {
    buf[ts[i].offset..ts[i + ts[i].next].offset]
  }

  /** Token i has a data section, and this is it. */
  predicate IsSection(buf: string, ts: seq<Token>, i: nat, text: string) {
    && i < |ts| && i + ts[i].next < |ts|
    && ts[i].offset <= ts[i + ts[i].next].offset <= |buf|
    && DataSection(buf, ts, i) == text
  }

  lemma DataSectionIsText(buf: string, ts: seq<Token>, i: nat, m: Node, offset: nat)
    requires ListsAt(ts, i, m, offset) && At(buf, offset, Print(m))
    ensures IsSection(buf, ts, i, Print(m))
  {
    hide Print, Tokens, Count;
    FirstToken(ts, i, m, offset);
  }

  lemma TextDecodes(m: Node, depthLimit: nat, tokenLimit: int)
    requires Fits(m, depthLimit, tokenLimit) && |Print(m)| <= MAX_OFFSET
    ensures Decode(Print(m), depthLimit, tokenLimit) == Decoded(Listing(m), |Print(m)|, None)
  {
    assert At(Print(m), 0, Print(m));
    DecodesTree(Print(m), m, depthLimit, tokenLimit);
  }

  lemma NodeSection(buf: string, n: Node, path: seq<nat>)
    requires Ok(n) && At(buf, 0, Print(n)) && HasPath(n, path)
    ensures var ts, i := Listing(n), IndexAt(n, path);
      IsSection(buf, ts, i, Print(NodeAt(n, path)))
  {
    hide IsSection;
    ListingListsRoot(n);
    NodeIsListed(Listing(n), 0, n, 0, path);
    NodeIsSmaller(buf, 0, n, path);
    DataSectionIsText(buf, Listing(n), IndexAt(n, path), NodeAt(n, path), OffsetAt(n, path));
  }

  /** For every node of a parsed buffer, its data section is the text of that node, and
      decoding the data section consumes all of it and lists that same subtree. */
  lemma DataSectionDecodesAgain(buf: string, depthLimit: nat, tokenLimit: int, n: Node, path: seq<nat>)
    requires |buf| <= MAX_OFFSET && Decode(buf, depthLimit, tokenLimit).error == None
    requires n == TreeOf(buf, depthLimit, tokenLimit) && HasPath(n, path)
    ensures var ts, i := Decode(buf, depthLimit, tokenLimit).tokens, IndexAt(n, path);
      IsSection(buf, ts, i, Print(NodeAt(n, path)))
    ensures Decode(Print(NodeAt(n, path)), depthLimit, tokenLimit)
      == Decoded(Listing(NodeAt(n, path)), |Print(NodeAt(n, path))|, None)
  {
    NodeSection(buf, n, path);
    NodeIsSmaller(buf, 0, n, path);
    TextDecodes(NodeAt(n, path), depthLimit, tokenLimit);
  }
}
