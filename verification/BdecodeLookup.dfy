/** bdecode_node: lookups in the token array of a parsed buffer. A node remembers the last
    item it looked up and its size; what a lookup returns does not depend on that. */
module BdecodeLookup {
  import opened Options
  import opened Numbers
  import opened Grammar
  import opened BdecodeTree

  /** Which of its items a container counts: every item of a list, every key of a dictionary. */
  function Stride(n: Node): nat {
    if n.Dict? then 2 else 1
  }

  lemma {:induction false} DictItems(items: Nodes, slot: Slot, k: nat)
    requires AllOk(items, slot) && slot != Item && k < Length(items)
    ensures Length(items) % 2 == (if slot == Key then 0 else 1)
    ensures k % 2 == (if slot == Key then 0 else 1) ==> Nth(items, k).Str?
    decreases items
  {
    if items.tail.Cons? {
      DictItems(items.tail, NextSlot(slot), if k == 0 then 0 else k - 1);
    }
  }

  lemma {:induction false} ItemsAreOk(items: Nodes, slot: Slot, k: nat)
    requires AllOk(items, slot) && k < Length(items)
    ensures Ok(Nth(items, k))
    decreases k
  {
    if k > 0 {
      ItemsAreOk(items.tail, NextSlot(slot), k - 1);
    }
  }

  /** The place of the k-th item of the container listed at i. */
  function PlaceOf(i: nat, n: Node, k: nat): nat
    requires k <= Length(Items(n))
  {
    i + 1 + CountBefore(Items(n), k)
  }

  /** The bytes of a string token: from behind its header to the next token. */
  lemma StringBytes(buf: string, ts: seq<Token>, i: nat, n: Node, offset: nat)
    requires ListsAt(ts, i, n, offset) && n.Str? && Ok(n) && At(buf, offset, Print(n))
    ensures i + 1 < |ts|
    ensures ts[i].offset + ts[i].header + 2 <= ts[i + 1].offset <= |buf|
    ensures buf[ts[i].offset + ts[i].header + 2..ts[i + 1].offset] == n.body
  {
    FirstToken(ts, i, n, offset);
    TokensHead(n, offset);
    AtSplit(buf, offset, n.prefix, ":" + n.body);
    AtSplit(buf, offset + |n.prefix|, ":", n.body);
  }

  lemma ItemText(buf: string, n: Node, offset: nat, k: nat)
    requires Ok(n) && IsContainer(n) && At(buf, offset, Print(n)) && k < Length(Items(n))
    ensures Ok(Nth(Items(n), k)) && At(buf, offset + 1 + BytesBefore(Items(n), k), Print(Nth(Items(n), k)))
  {
    AtSplit(buf, offset, if n.List? then "l" else "d", PrintAll(Items(n)) + "e");
    AtSplit(buf, offset + 1, PrintAll(Items(n)), "e");
    ItemIsSmaller(buf, offset + 1, Items(n), FirstSlot(n), k);
  }

  /** The value int_value() gives an integer text: 0 if it does not fit 63 bits. */
  function IntegerValue(text: string): int
    requires IntegerOk(text)
  {
    var m: int := Numbers.Value(Magnitude(text));
    if m > INT64_MAX then 0 else if text[0] == '-' then -m else m
  }

  class BdecodeNode {
    const tokens: seq<Token>
    const buffer: string
    const tokenIdx: nat
    var lastIndex: int
    var lastToken: int
    var size: int
    ghost const tree: Node
    ghost const offset: nat

    constructor (tokens: seq<Token>, buffer: string, tokenIdx: nat, ghost tree: Node, ghost offset: nat)
      requires ListsAt(tokens, tokenIdx, tree, offset) && Ok(tree) && At(buffer, offset, Print(tree))
      ensures Valid()
      ensures this.tokens == tokens && this.buffer == buffer && this.tokenIdx == tokenIdx
      ensures this.tree == tree && this.offset == offset
      ensures lastIndex == -1 && size == -1
    {
      this.tokens, this.buffer, this.tokenIdx := tokens, buffer, tokenIdx;
      this.tree, this.offset := tree, offset;
      lastIndex, lastToken, size := -1, -1, -1;
    }

    /** The tree the node stands for, and that what it remembers is right. */
    ghost predicate Valid()
      reads this
    {
      && ListsAt(tokens, tokenIdx, tree, offset)
      && Ok(tree)
      && At(buffer, offset, Print(tree))
      && (lastIndex != -1 ==>
            && IsContainer(tree)
            && 0 <= lastIndex
            && lastIndex * Stride(tree) < Length(Items(tree))
            && lastToken == PlaceOf(tokenIdx, tree, lastIndex * Stride(tree)))
      && (size != -1 ==> size * Stride(tree) == Length(Items(tree)))
    }

    ghost predicate IsChild(r: BdecodeNode, k: nat)
      reads this, r
      requires k < Length(Items(tree))
    {
      && r.Valid()
      && r.tokens == tokens && r.buffer == buffer
      && r.tokenIdx == PlaceOf(tokenIdx, tree, k)
      && r.tree == Nth(Items(tree), k)
    }

    /** A new node for the k-th item, whose place was found by walking. */
    method Child(token: nat, ghost k: nat) returns (r: BdecodeNode)
      requires Valid() && IsContainer(tree) && k < Length(Items(tree))
      requires token == PlaceOf(tokenIdx, tree, k)
      ensures fresh(r) && IsChild(r, k)
    {
      ItemIsListed(tokens, tokenIdx, tree, offset, k);
      ItemText(buffer, tree, offset, k);
      r := new BdecodeNode(tokens, buffer, token, Nth(Items(tree), k), offset + 1 + BytesBefore(Items(tree), k));
    }

    /** Skips one item. */
    method Skip(token: nat, ghost k: nat) returns (token': nat)
      requires Valid() && IsContainer(tree) && k < Length(Items(tree))
      requires token == PlaceOf(tokenIdx, tree, k)
      ensures token' == PlaceOf(tokenIdx, tree, k + 1) && token' < |tokens|
      ensures tokens[token'].kind == EndToken <==> k + 1 == Length(Items(tree))
    {
      NextLeadsToSibling(tokens, tokenIdx, tree, offset, k);
      token' := token + tokens[token].next;
    }

    /** The lookup loop of list_at(). */
    method WalkList(start: nat, from: nat, i: nat) returns (token: nat)
      requires Valid() && tree.List? && from <= i < Length(tree.items)
      requires start == PlaceOf(tokenIdx, tree, from)
      ensures token == PlaceOf(tokenIdx, tree, i)
    {
      token := start;
      for item := from to i
        invariant token == PlaceOf(tokenIdx, tree, item)
      {
        token := Skip(token, item);
      }
    }

    /** The lookup loop of dict_at(): it skips keys and values. */
    method WalkDict(start: nat, from: nat, i: nat) returns (token: nat)
      requires Valid() && tree.Dict? && from <= i && 2 * i < Length(tree.items)
      requires start == PlaceOf(tokenIdx, tree, 2 * from)
      ensures token == PlaceOf(tokenIdx, tree, 2 * i)
    {
      token := start;
      for item := from to i
        invariant token == PlaceOf(tokenIdx, tree, 2 * item)
      {
        token := Skip(token, 2 * item);
        token := Skip(token, 2 * item + 1);
      }
    }

    method ListAt(i: nat) returns (r: BdecodeNode)
      requires Valid() && tree.List? && i < Length(tree.items)
      modifies this`lastIndex, this`lastToken
      ensures Valid()
      ensures fresh(r) && IsChild(r, i)
    {
      var token, item := tokenIdx + 1, 0;
      if lastIndex <= i && lastIndex != -1 {
        token, item := lastToken, lastIndex;
      }
      token := WalkList(token, item, i);
      r := Child(token, i);
      lastToken, lastIndex := token, i;
    }

    method ListSize() returns (n: nat)
      requires Valid() && tree.List?
      modifies this`size
      ensures Valid()
      ensures n == Length(tree.items)
    {
      if size != -1 {
        return size;
      }
      n := CountItems(if lastIndex != -1 then lastToken else tokenIdx + 1, if lastIndex != -1 then lastIndex else 0);
      size := n;
    }

    /** Walks to the end of the container, counting items from the k-th on. */
    method CountItems(start: nat, k: nat) returns (n: nat)
      requires Valid() && IsContainer(tree)
      requires k <= Length(Items(tree)) && start == PlaceOf(tokenIdx, tree, k)
      ensures n == Length(Items(tree))
    {
      n := k;
      var token := start;
      EndsAtEndToken(k);
      while tokens[token].kind != EndToken
        invariant n <= Length(Items(tree)) && token == PlaceOf(tokenIdx, tree, n) && token < |tokens|
        invariant tokens[token].kind == EndToken <==> n == Length(Items(tree))
        decreases Length(Items(tree)) - n
      {
        token := Skip(token, n);
        n := n + 1;
      }
    }

    lemma EndsAtEndToken(k: nat)
      requires Valid() && IsContainer(tree) && k <= Length(Items(tree))
      ensures PlaceOf(tokenIdx, tree, k) < |tokens|
      ensures tokens[PlaceOf(tokenIdx, tree, k)].kind == EndToken <==> k == Length(Items(tree))
    {
      if k < Length(Items(tree)) {
        NextLeadsToSibling(tokens, tokenIdx, tree, offset, k);
      } else {
        ContainerLists(tokens, tokenIdx, tree, offset);
        CountBeforeAll(Items(tree));
      }
    }

    method DictSize() returns (n: nat)
      requires Valid() && tree.Dict?
      modifies this`size
      ensures Valid()
      ensures 2 * n == Length(tree.items)
    {
      if size != -1 {
        return size;
      }
      n := CountItems(if lastIndex != -1 then lastToken else tokenIdx + 1, if lastIndex != -1 then lastIndex * 2 else 0);
      if tree.items.Cons? {
        DictItems(tree.items, Key, 0);
      }
      n := n / 2;
      size := n;
    }

    method DictAt(i: nat) returns (key: string, value: BdecodeNode)
      requires Valid() && tree.Dict? && 2 * i < Length(tree.items)
      modifies this`lastIndex, this`lastToken
      ensures Valid()
      ensures 2 * i + 1 < Length(tree.items)
      ensures Nth(tree.items, 2 * i).Str? && key == Nth(tree.items, 2 * i).body
      ensures fresh(value) && IsChild(value, 2 * i + 1)
    {
      DictItems(tree.items, Key, 2 * i);
      var token, item := tokenIdx + 1, 0;
      if lastIndex <= i && lastIndex != -1 {
        token, item := lastToken, lastIndex;
      }
      token := WalkDict(token, item, i);
      if i > 0 {
        lastToken, lastIndex := token, i;
      }
      key, value := Entry(token, 2 * i);
    }

    /** The key and the value behind it, read at the key's token. */
    method Entry(token: nat, ghost k: nat) returns (key: string, value: BdecodeNode)
      requires Valid() && tree.Dict? && k + 1 < Length(tree.items) && Nth(tree.items, k).Str?
      requires token == PlaceOf(tokenIdx, tree, k)
      ensures key == Nth(tree.items, k).body
      ensures fresh(value) && IsChild(value, k + 1)
    {
      var valueToken := Skip(token, k);
      var name := Child(token, k);
      key := name.StringValue();
      value := Child(valueToken, k + 1);
    }

    method StringValue() returns (s: string)
      requires Valid() && tree.Str?
      ensures s == tree.body
    {
      StringBytes(buffer, tokens, tokenIdx, tree, offset);
      var t := tokens[tokenIdx];
      s := buffer[t.offset + t.header + 2..tokens[tokenIdx + 1].offset];
    }

    /** The value of the first entry whose key is key, or null. */
    method DictFind(key: string) returns (value: BdecodeNode?)
      requires Valid() && tree.Dict?
      ensures FirstKey(tree.items, key) < Length(tree.items) ==>
        && FirstKey(tree.items, key) + 1 < Length(tree.items)
        && value != null && fresh(value) && IsChild(value, FirstKey(tree.items, key) + 1)
      ensures FirstKey(tree.items, key) >= Length(tree.items) ==> value == null
    {
      var token := tokenIdx + 1;
      ghost var k := 0;
      EndsAtEndToken(0);
      while tokens[token].kind != EndToken
        invariant k <= Length(tree.items) && k % 2 == 0
        invariant token == PlaceOf(tokenIdx, tree, k) && token < |tokens|
        invariant tokens[token].kind == EndToken <==> k == Length(tree.items)
        invariant k <= FirstKey(tree.items, key)
        decreases Length(tree.items) - k
      {
        DictItems(tree.items, Key, k);
        var name := Child(token, k);
        var s := name.StringValue();
        var valueToken := Skip(token, k);
        FirstKeyIs(tree.items, key, k);
        if s == key {
          value := Child(valueToken, k + 1);
          return;
        }
        token := Skip(valueToken, k + 1);
        k := k + 2;
      }
      value := null;
    }

    method IntValue() returns (v: int)
      requires Valid() && tree.Integer?
      ensures v == IntegerValue(tree.text)
      ensures AllNumeric(tree.text) && Numbers.Value(tree.text) <= INT64_MAX ==> v == Numbers.Value(tree.text)
      ensures tree.text[0] == '-' && AllNumeric(tree.text[1..]) && Numbers.Value(tree.text[1..]) <= INT64_MAX ==>
        -v == Numbers.Value(tree.text[1..])
      ensures AllNumeric(tree.text) && Numbers.Value(tree.text) > INT64_MAX ==> v == 0
      ensures tree.text[0] == '-' && AllNumeric(tree.text[1..]) && Numbers.Value(tree.text[1..]) > INT64_MAX ==> v == 0
    {
      FirstToken(tokens, tokenIdx, tree, offset);
      IntegerBytes(buffer, offset, tree.text);
      var t := tokens[tokenIdx];
      var span := tokens[tokenIdx + 1].offset - t.offset;
      // the 'e' at the end of the token stops the parse in front of this bound
      var end := t.offset + span;
      var ptr := t.offset + 1;
      var negative := buffer[ptr] == '-';
      var val, stop, ec := ParseInt(buffer, if negative then ptr + 1 else ptr, end, 'e', 0);
      if ec.Some? {
        return 0;
      }
      v := if negative then -val else val;
    }
  }

  /** The place of the first key equal to key among the items of a dictionary. */
  function FirstKey(items: Nodes, key: string): nat {
    if items.Nil? || items.tail.Nil? then Length(items)
    else if items.head.Str? && items.head.body == key then 0
    else 2 + FirstKey(items.tail.tail, key)
  }

  lemma {:induction false} FirstKeyIs(items: Nodes, key: string, k: nat)
    requires AllOk(items, Key) && k < Length(items) && k % 2 == 0 && k <= FirstKey(items, key)
    ensures k + 1 < Length(items) && Nth(items, k).Str?
    ensures FirstKey(items, key) == k <==> Nth(items, k).body == key
    ensures FirstKey(items, key) != k ==> k + 2 <= FirstKey(items, key)
    decreases items
  {
    DictItems(items, Key, k);
    if k > 0 {
      FirstKeyIs(items.tail.tail, key, k - 2);
    }
  }

  lemma IntegerBytes(buf: string, offset: nat, text: string)
    requires IntegerOk(text) && At(buf, offset, Print(Integer(text)))
    ensures offset + 2 + |text| <= |buf| && buf[offset + 1] == text[0]
    ensures var first := if text[0] == '-' then offset + 2 else offset + 1;
      var p := ParseFrom(buf, first, offset + 2 + |text|, 'e', 0);
      IntegerValue(text) == if p.error.Some? then 0 else if text[0] == '-' then -p.val else p.val
  {
    AtSplit(buf, offset, "i", text + "e");
    AtSplit(buf, offset + 1, text, "e");
    AtChar(buf, offset + 1 + |text|, 'e');
    MagnitudeParses(buf, offset + 1, text);
  }

  lemma MagnitudeParses(buf: string, pos: nat, text: string)
    requires IntegerOk(text) && At(buf, pos, text)
    requires pos + |text| < |buf| && buf[pos + |text|] == 'e'
    ensures buf[pos] == text[0]
    ensures var m := Magnitude(text);
      var p := ParseFrom(buf, pos + |text| - |m|, pos + |text| + 1, 'e', 0);
      && (Numbers.Value(m) <= INT64_MAX ==> p.error == None && p.val == Numbers.Value(m))
      && (Numbers.Value(m) > INT64_MAX ==> p.error.Some?)
  {
    hide ParseFrom, Numbers.Value;
    var m := Magnitude(text);
    var first := pos + |text| - |m|;
    assert buf[first..first + |m|] == m;
    NoDigits();
    ParseDigits(buf, first, pos + |text| + 1, 'e', "", m);
    assert "" + m == m;
  }
}
