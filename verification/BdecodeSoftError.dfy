/** has_soft_error() and the conversion to an entry, as they work on the token array. */
module BdecodeSoftError {
  import opened Numbers
  import opened Grammar
  import opened BdecodeTree
  import opened BdecodeLookup
  import opened Bencode
  import opened BencodeText

  // ----- entry::operator=(bdecode_node const&) -----

  function Drop(items: Nodes, k: nat): (r: Nodes)
    requires k <= Length(items)
    ensures Length(r) == Length(items) - k
  {
    if k == 0 then items else Drop(items.tail, k - 1)
  }

  lemma {:induction false} DropIs(items: Nodes, slot: Slot, k: nat)
    requires AllOk(items, slot) && k < Length(items)
    ensures Drop(items, k) == Cons(Nth(items, k), Drop(items, k + 1))
    ensures AllOk(Drop(items, k), if k % 2 == 0 then slot else NextSlot(slot))
    decreases k
  {
    if k > 0 {
      DropIs(items.tail, NextSlot(slot), k - 1);
      assert Drop(items, k) == Drop(items.tail, k - 1);
    }
  }

  function AppendAll(es: Entries, more: Entries): Entries {
    match es
    case NoEntries => more
    case Entries(e, rest) => Entries(e, AppendAll(rest, more))
  }

  lemma {:induction false} AppendOne(es: Entries, e: Entry, more: Entries)
    ensures AppendAll(AppendAll(es, Entries(e, NoEntries)), more) == AppendAll(es, Entries(e, more))
  {
    if es.Entries? {
      AppendOne(es.rest, e, more);
    }
  }

  lemma {:induction false} AppendNone(es: Entries)
    ensures AppendAll(es, NoEntries) == es
  {
    if es.Entries? {
      AppendNone(es.rest);
    }
  }

  /** The entry converted from a node is that of the tree the node stands for. */
  method ConvertNode(node: BdecodeNode) returns (e: Entry)
    requires node.Valid()
    modifies node
    ensures node.Valid() && e == ToEntry(node.tree)
    decreases node.tree, 1
  {
    FirstToken(node.tokens, node.tokenIdx, node.tree, node.offset);
    match node.tokens[node.tokenIdx].kind
    case StringToken =>
      var s := node.StringValue();
      e := Text(s);
    case IntegerToken =>
      var v := node.IntValue();
      e := Int(v);
    case DictToken =>
      var d := ConvertDict(node);
      e := DictOf(d);
    case ListToken =>
      var l := ConvertList(node);
      e := ListOf(l);
  }

  method ConvertList(node: BdecodeNode) returns (l: Entries)
    requires node.Valid() && node.tree.List?
    modifies node
    ensures node.Valid() && l == ToEntries(node.tree.items)
    decreases node.tree, 0
  {
    l := NoEntries;
    ghost var items := node.tree.items;
    var size := node.ListSize();
    for i := 0 to size
      invariant node.Valid()
      invariant AllOk(Drop(items, i), Item)
      invariant AppendAll(l, ToEntries(Drop(items, i))) == ToEntries(items)
    {
      DropIs(items, Item, i);
      var child := node.ListAt(i);
      NthIsSmaller(items, i);
      var e := ConvertNode(child);
      AppendOne(l, e, ToEntries(Drop(items, i + 1)));
      l := AppendAll(l, Entries(e, NoEntries));
    }
    assert Drop(items, size) == Nil;
    AppendNone(l);
  }

  method ConvertDict(node: BdecodeNode) returns (d: Pairs)
    requires node.Valid() && node.tree.Dict?
    modifies node
    ensures node.Valid() && d == InsertAll(NoPairs, node.tree.items)
    decreases node.tree, 0
  {
    hide ListsAt, Tokens, Print, ToEntry;
    d := NoPairs;
    ghost var items := node.tree.items;
    var size := node.DictSize();
    for i := 0 to size
      invariant node.Valid()
      invariant AllOk(Drop(items, 2 * i), Key)
      invariant InsertAll(d, Drop(items, 2 * i)) == InsertAll(NoPairs, items)
    {
      DropIs(items, Key, 2 * i);
      PairParts(Drop(items, 2 * i));
      DropIs(items, Key, 2 * i + 1);
      var key, value := node.DictAt(i);
      NthIsSmaller(items, 2 * i + 1);
      var e := ConvertNode(value);
      d := Insert(d, key, e);
    }
    assert Drop(items, 2 * size) == Nil;
  }

  lemma {:induction false} NthIsSmaller(items: Nodes, k: nat)
    requires k < Length(items)
    ensures Nth(items, k) < items
    decreases k
  {
    if k > 0 {
      NthIsSmaller(items.tail, k - 1);
    }
  }

  // ----- has_soft_error() -----

  /** memcmp() over the first n bytes: negative, zero or positive. */
  function Memcmp(a: string, b: string, n: nat): int
    requires n <= |a| && n <= |b|
  {
    if n == 0 then 0
    else if a[0] != b[0] then a[0] as int - b[0] as int
    else Memcmp(a[1..], b[1..], n - 1)
  }

  lemma {:induction false} MemcmpOrders(a: string, b: string)
    ensures var c := Memcmp(a, b, if |a| < |b| then |a| else |b|);
      Less(a, b) <==> !(c > 0 || (c == 0 && |a| > |b|)) && !(c == 0 && |a| == |b|)
    decreases |a|
  {
    if a != "" && b != "" && a[0] == b[0] {
      MemcmpOrders(a[1..], b[1..]);
    }
  }

  /** The containers around a token: the index of their token, and how many of their items
      were started. */
  datatype Context =
    | Top
    | Inside(token: nat, node: Node, offset: nat, started: nat, outer: Context)

  function Stack(c: Context): seq<nat> {
    match c
    case Top => []
    case Inside(token, _, _, _, outer) => Stack(outer) + [token]
  }

  /** n is listed at token, where the text of it starts at offset. */
  ghost predicate Stands(ts: seq<Token>, buf: string, token: nat, n: Node, offset: nat) {
    ListsAt(ts, token, n, offset) && Ok(n) && At(buf, offset, Print(n))
  }

  /** next is where the started items of the innermost container end. */
  ghost predicate Reached(ts: seq<Token>, buf: string, c: Context, next: nat) {
    match c
    case Top => true
    case Inside(token, n, offset, started, outer) =>
      && Stands(ts, buf, token, n, offset)
      && IsContainer(n)
      && started <= Length(Items(n))
      && next == PlaceOf(token, n, started)
      && Reached(ts, buf, outer, token + Count(n))
  }

  predicate SoftErrorFrom(items: Nodes, slot: Slot, k: nat)
    requires AllOk(items, slot) && k <= Length(items)
  {
    if k == 0 then AnySoftError(items, slot) else SoftErrorFrom(items.tail, NextSlot(slot), k - 1)
  }

  predicate UnsortedDict(n: Node)
    requires Ok(n)
  {
    n.Dict? && !KeysSorted(n.items)
  }

  /** An error is yet to be found in what is left of the containers. */
  ghost predicate ErrorLeft(ts: seq<Token>, buf: string, c: Context, next: nat)
    requires Reached(ts, buf, c, next)
    decreases c
  {
    match c
    case Top => false
    case Inside(token, n, _, started, outer) =>
      || SoftErrorFrom(Items(n), FirstSlot(n), started)
      || UnsortedDict(n)
      || ErrorLeft(ts, buf, outer, token + Count(n))
  }

  lemma {:induction false} SoftErrorStep(items: Nodes, slot: Slot, k: nat)
    requires AllOk(items, slot) && k < Length(items)
    ensures Ok(Nth(items, k))
    ensures SoftErrorFrom(items, slot, k) <==> SoftError(Nth(items, k)) || SoftErrorFrom(items, slot, k + 1)
    decreases k
  {
    if k > 0 {
      SoftErrorStep(items.tail, NextSlot(slot), k - 1);
    }
  }

  lemma {:induction false} SoftErrorEnd(items: Nodes, slot: Slot)
    requires AllOk(items, slot)
    ensures !SoftErrorFrom(items, slot, Length(items))
  {
    if items.Cons? {
      SoftErrorEnd(items.tail, NextSlot(slot));
    }
  }

  lemma SoftErrorOfContainer(n: Node)
    requires Ok(n) && IsContainer(n)
    ensures AllOk(Items(n), FirstSlot(n))
    ensures SoftError(n) <==> SoftErrorFrom(Items(n), FirstSlot(n), 0) || UnsortedDict(n)
  {
  }

  /** Starts the next item of the innermost container. */
  lemma NextItem(ts: seq<Token>, buf: string, c: Context, next: nat)
      returns (n: Node, offset: nat, c': Context)
    requires Reached(ts, buf, c, next) && c.Inside? && c.started < Length(Items(c.node))
    ensures Stands(ts, buf, next, n, offset)
    ensures Stack(c') == Stack(c) && c'.Inside?
    ensures Reached(ts, buf, c', next + Count(n))
    ensures ErrorLeft(ts, buf, c, next) <==> SoftError(n) || ErrorLeft(ts, buf, c', next + Count(n))
  {
    var items, k := Items(c.node), c.started;
    n, offset := Nth(items, k), c.offset + 1 + BytesBefore(items, k);
    c' := c.(started := k + 1);
    ItemIsListed(ts, c.token, c.node, c.offset, k);
    ItemText(buf, c.node, c.offset, k);
    CountBeforeNext(items, k);
    SoftErrorOfContainer(c.node);
    SoftErrorStep(items, FirstSlot(c.node), k);
  }

  /** The token at next ends the innermost container exactly if no item is left. */
  lemma EndOfItems(ts: seq<Token>, buf: string, c: Context, next: nat)
    requires Reached(ts, buf, c, next) && c.Inside?
    ensures next < |ts|
    ensures ts[next].kind == EndToken <==> c.started == Length(Items(c.node))
    ensures c.started == Length(Items(c.node)) ==>
      && next + 1 == c.token + Count(c.node)
      && !SoftErrorFrom(Items(c.node), FirstSlot(c.node), c.started)
  {
    var items := Items(c.node);
    if c.started < Length(items) {
      NextLeadsToSibling(ts, c.token, c.node, c.offset, c.started);
    } else {
      ContainerLists(ts, c.token, c.node, c.offset);
      CountBeforeAll(items);
      SoftErrorEnd(items, FirstSlot(c.node));
    }
  }

  lemma LeafBytes(ts: seq<Token>, buf: string, token: nat, n: Node, offset: nat)
    requires Stands(ts, buf, token, n, offset) && !IsContainer(n)
    ensures ts[token].offset == offset && offset + 2 < |buf| + 1 && Count(n) == 1
    ensures ts[token].kind == IntegerToken <==> n.Integer?
    ensures n.Integer? ==> offset + 2 < |buf| && (SoftError(n) <==> buf[offset + 1] == '0' && buf[offset + 2] != 'e')
    ensures n.Str? ==> (SoftError(n) <==> buf[offset] == '0' && buf[offset + 1] != ':')
  {
    FirstToken(ts, token, n, offset);
    match n
    case Integer(text) => IntegerFirstBytes(buf, offset, text);
    case Str(prefix, body) => StrFirstBytes(buf, offset, prefix, body);
  }

  lemma IntegerFirstBytes(buf: string, offset: nat, text: string)
    requires IntegerOk(text) && At(buf, offset, Print(Integer(text)))
    ensures offset + 2 < |buf|
    ensures SoftError(Integer(text)) <==> buf[offset + 1] == '0' && buf[offset + 2] != 'e'
  {
    AtSplit(buf, offset, "i", text + "e");
    AtSplit(buf, offset + 1, text, "e");
    AtChar(buf, offset + 1 + |text|, 'e');
    assert buf[offset + 1] == text[0];
    if |text| > 1 {
      assert buf[offset + 2] == text[1];
      assert text[0] == '0' ==> Magnitude(text) == text && Numeric(text[1]);
    }
  }

  lemma StrFirstBytes(buf: string, offset: nat, prefix: string, body: string)
    requires StrOk(prefix, body) && At(buf, offset, Print(Str(prefix, body)))
    ensures offset + 1 < |buf|
    ensures SoftError(Str(prefix, body)) <==> buf[offset] == '0' && buf[offset + 1] != ':'
  {
    AtSplit(buf, offset, prefix, ":" + body);
    AtSplit(buf, offset + |prefix|, ":", body);
    AtChar(buf, offset + |prefix|, ':');
    assert buf[offset] == prefix[0];
    if |prefix| > 1 {
      assert buf[offset + 1] == prefix[1];
      assert Numeric(prefix[1]);
    }
  }

  // ----- the order of the keys of one dictionary -----

  /** The keys from the k-th item on are in order. */
  predicate SortedFrom(items: Nodes, k: nat)
    requires AllOk(items, Key) && k <= Length(items) && k % 2 == 0
    decreases k
  {
    if k == 0 then KeysSorted(items)
    else
      PairParts(items);
      PairSkipped(items, k - 2);
      SortedFrom(items.tail.tail, k - 2)
  }

  lemma PairSkipped(items: Nodes, k: nat)
    requires AllOk(items, Key) && items.Cons?
    ensures items.tail.Cons? && Length(items) == Length(items.tail.tail) + 2
    ensures k < Length(items.tail.tail) ==> Nth(items, k + 2) == Nth(items.tail.tail, k)
  {
    PairParts(items);
    assert k < Length(items.tail.tail) ==> Nth(items, k + 2) == Nth(items.tail, k + 1);
  }

  lemma {:induction false} SortedStep(items: Nodes, k: nat)
    requires AllOk(items, Key) && k < Length(items) && k % 2 == 0
    ensures k + 2 <= Length(items) && Nth(items, k).Str?
    ensures k + 2 == Length(items) ==> SortedFrom(items, k)
    ensures k + 2 < Length(items) ==>
      && Nth(items, k + 2).Str?
      && (SortedFrom(items, k) <==> Less(Nth(items, k).body, Nth(items, k + 2).body) && SortedFrom(items, k + 2))
    decreases k
  {
    PairParts(items);
    PairSkipped(items, k);
    if k > 0 {
      PairSkipped(items, k - 2);
      SortedStep(items.tail.tail, k - 2);
    } else if items.tail.tail.Cons? {
      PairParts(items.tail.tail);
    }
  }

  /** The bytes of the k-th item of a dictionary, which is a key. */
  lemma KeyBytes(ts: seq<Token>, buf: string, parent: nat, n: Node, offset: nat, k: nat)
    requires Stands(ts, buf, parent, n, offset) && n.Dict? && k < Length(n.items) && k % 2 == 0
    ensures Nth(n.items, k).Str?
    ensures var key, value := PlaceOf(parent, n, k), PlaceOf(parent, n, k + 1);
      && key < |ts| && value < |ts| && key + ts[key].next == value
      && ts[key].offset + ts[key].header + 2 <= ts[value].offset <= |buf|
      && buf[ts[key].offset + ts[key].header + 2..ts[value].offset] == Nth(n.items, k).body
  {
    DictItems(n.items, Key, k);
    ItemIsListed(ts, parent, n, offset, k);
    ItemText(buf, n, offset, k);
    var key := Nth(n.items, k);
    StringBytes(buf, ts, PlaceOf(parent, n, k), key, offset + 1 + BytesBefore(n.items, k));
    NextLeadsToSibling(ts, parent, n, offset, k);
    CountBeforeNext(n.items, k);
    FirstToken(ts, PlaceOf(parent, n, k), key, offset + 1 + BytesBefore(n.items, k));
  }

  /** Compares two keys, given where their tokens and the tokens of their values are. */
  method KeysOutOfOrder(ts: seq<Token>, buf: string, k1: nat, v1: nat, k2: nat, v2: nat) returns (bad: bool)
    requires k1 < |ts| && v1 < |ts| && k2 < |ts| && v2 < |ts|
    requires ts[k1].offset + ts[k1].header + 2 <= ts[v1].offset <= |buf|
    requires ts[k2].offset + ts[k2].header + 2 <= ts[v2].offset <= |buf|
    ensures bad <==> !Less(buf[ts[k1].offset + ts[k1].header + 2..ts[v1].offset],
                           buf[ts[k2].offset + ts[k2].header + 2..ts[v2].offset])
  {
    var start1 := ts[k1].offset + ts[k1].header + 2;
    var len1 := ts[v1].offset - start1;
    var start2 := ts[k2].offset + ts[k2].header + 2;
    var len2 := ts[v2].offset - start2;
    var minLen := if len1 < len2 then len1 else len2;
    var a, b := buf[start1..start1 + len1], buf[start2..start2 + len2];
    var cmp := Memcmp(a, b, minLen);
    MemcmpOrders(a, b);
    bad := cmp > 0 || (cmp == 0 && len1 > len2) || (cmp == 0 && len1 == len2);
  }

  /** The walk over the keys of a dictionary that is not empty, from its token to the
      token that ends it. */
  method CheckKeys(ts: seq<Token>, buf: string, parent: nat, end: nat, ghost n: Node, ghost offset: nat)
      returns (bad: bool)
    requires Stands(ts, buf, parent, n, offset) && n.Dict? && n.items.Cons?
    requires end + 1 == parent + Count(n)
    ensures bad <==> UnsortedDict(n)
  {
    hide KeysSorted, Less, AnySoftError, Print, Tokens, SortedFrom, CountBefore, ListsAt;
    var k1 := parent + 1;
    ghost var k := 0;
    FirstKeyPlace(parent, n);
    while true
      invariant k < Length(n.items) && k % 2 == 0 && k1 == PlaceOf(parent, n, k)
      invariant SortedFrom(n.items, k) <==> KeysSorted(n.items)
      decreases Length(n.items) - k
    {
      SortedStep(n.items, k);
      KeyBytes(ts, buf, parent, n, offset, k);
      var v1 := k1 + ts[k1].next;
      NextLeadsToSibling(ts, parent, n, offset, k + 1);
      var k2 := v1 + ts[v1].next;
      EndIsLast(ts, parent, n, offset, k + 2, end);
      if k2 == end {
        return false;
      }
      KeyBytes(ts, buf, parent, n, offset, k + 2);
      var v2 := k2 + ts[k2].next;
      bad := KeysOutOfOrder(ts, buf, k1, v1, k2, v2);
      if bad {
        return;
      }
      k1, k := k2, k + 2;
    }
  }

  lemma FirstKeyPlace(parent: nat, n: Node)
    requires Ok(n) && n.Dict? && n.items.Cons?
    ensures PlaceOf(parent, n, 0) == parent + 1 && (SortedFrom(n.items, 0) <==> KeysSorted(n.items))
  {
  }

  lemma EndIsLast(ts: seq<Token>, parent: nat, n: Node, offset: nat, k: nat, end: nat)
    requires ListsAt(ts, parent, n, offset) && IsContainer(n) && k <= Length(Items(n))
    requires end + 1 == parent + Count(n)
    ensures PlaceOf(parent, n, k) == end <==> k == Length(Items(n))
  {
    CountBeforeAll(Items(n));
    if k < Length(Items(n)) {
      CountBeforeGrows(Items(n), k);
    }
  }

  lemma {:induction false} CountBeforeGrows(items: Nodes, k: nat)
    requires k < Length(items)
    ensures CountBefore(items, k) < CountAll(items)
    decreases k
  {
    if k > 0 {
      CountBeforeGrows(items.tail, k - 1);
    }
  }

  // ----- the loop -----

  /** The check of a number or a string. */
  method CheckLeaf(ts: seq<Token>, buf: string, token: nat, ghost n: Node, ghost offset: nat) returns (bad: bool)
    requires Stands(ts, buf, token, n, offset) && !IsContainer(n)
    ensures bad <==> SoftError(n)
  {
    LeafBytes(ts, buf, token, n, offset);
    var at := ts[token].offset;
    if ts[token].kind == IntegerToken {
      bad := buf[at + 1] == '0' && buf[at + 2] != 'e';
    } else {
      bad := buf[at] == '0' && buf[at + 1] != ':';
    }
  }

  /** One round of the loop on a token that starts a node. */
  method VisitNode(ts: seq<Token>, buf: string, token: nat, stack: seq<nat>,
                   ghost n: Node, ghost offset: nat, ghost c: Context)
      returns (bad: bool, stack': seq<nat>, ghost c': Context)
    requires Stands(ts, buf, token, n, offset)
    requires stack == Stack(c) && Reached(ts, buf, c, token + Count(n))
    ensures stack' == Stack(c') && Reached(ts, buf, c', token + 1)
    ensures bad ==> SoftError(n)
    ensures !bad ==> (ErrorLeft(ts, buf, c', token + 1) <==> SoftError(n) || ErrorLeft(ts, buf, c, token + Count(n)))
  {
    FirstToken(ts, token, n, offset);
    bad, stack', c' := false, stack, c;
    if ts[token].kind == DictToken || ts[token].kind == ListToken {
      stack' := stack + [token];
      c' := Inside(token, n, offset, 0, c);
      SoftErrorOfContainer(n);
    } else {
      bad := CheckLeaf(ts, buf, token, n, offset);
      LeafBytes(ts, buf, token, n, offset);
    }
  }

  /** One round of the loop on a token that ends a container. */
  method VisitEnd(ts: seq<Token>, buf: string, token: nat, stack: seq<nat>, ghost c: Context)
      returns (bad: bool, stack': seq<nat>, ghost c': Context)
    requires Reached(ts, buf, c, token) && c.Inside? && stack == Stack(c)
    requires c.started == Length(Items(c.node))
    ensures c' == c.outer && stack' == Stack(c') && Reached(ts, buf, c', token + 1)
    ensures bad ==> ErrorLeft(ts, buf, c, token)
    ensures !bad ==> (ErrorLeft(ts, buf, c', token + 1) <==> ErrorLeft(ts, buf, c, token))
  {
    EndOfItems(ts, buf, c, token);
    var parent := stack[|stack| - 1];
    stack', c' := stack[..|stack| - 1], c.outer;
    FirstToken(ts, c.token, c.node, c.offset);
    bad := false;
    if ts[parent].kind == DictToken && token != parent + 1 {
      bad := CheckKeys(ts, buf, parent, token, c.node, c.offset);
    }
  }

  /** has_soft_error() goes over the tokens of a node with a stack of open containers. It
      reports an error exactly if the tree contains one. */
  method HasSoftError(node: BdecodeNode) returns (error: bool)
    requires node.Valid()
    ensures error <==> SoftError(node.tree)
  {
    var ts, buf, token := node.tokens, node.buffer, node.tokenIdx;
    var stack: seq<nat>;
    ghost var c: Context;
    error, stack, c := VisitNode(ts, buf, token, [], node.tree, node.offset, Top);
    token := token + 1;
    while !error && stack != []
      invariant stack == Stack(c) && Reached(ts, buf, c, token)
      invariant error ==> SoftError(node.tree)
      invariant !error ==> (ErrorLeft(ts, buf, c, token) <==> SoftError(node.tree))
      decreases |ts| - token, !error
    {
      EndOfItems(ts, buf, c, token);
      if ts[token].kind == EndToken {
        error, stack, c := VisitEnd(ts, buf, token, stack, c);
      } else {
        ghost var n, offset, c1 := NextItem(ts, buf, c, token);
        error, stack, c := VisitNode(ts, buf, token, stack, n, offset, c1);
      }
      token := token + 1;
    }
  }
}
