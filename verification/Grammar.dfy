/** The bencoding grammar of BEP 3 as bdecode() accepts it, and the token array that is
    the preorder listing of a parse tree. */
module Grammar {
  import opened Numbers

  /** The limits of the token's bit fields. */
  const MAX_OFFSET := 0x1fff_ffff
  const MAX_NEXT_ITEM := 0x1fff_ffff
  const MAX_HEADER := 7

  datatype Kind = DictToken | ListToken | StringToken | IntegerToken | EndToken

  /** next is the distance to the next sibling; the text of a string starts
      header + 2 bytes behind its offset. */
  datatype Token = Token(offset: nat, next: nat, kind: Kind, header: nat)

  /** A parse tree: it keeps the exact text of numbers and length prefixes. The items of a
      dictionary are its keys and values in turn. */
  datatype Node =
    | Integer(text: string)
    | Str(prefix: string, body: string)
    | List(items: Nodes)
    | Dict(items: Nodes)

  datatype Nodes = Nil | Cons(head: Node, tail: Nodes)

  /** What the next item of a container has to be. */
  datatype Slot = Item | Key | Value

  function NextSlot(slot: Slot): Slot {
    match slot
    case Item => Item
    case Key => Value
    case Value => Key
  }

  function FirstSlot(n: Node): Slot {
    if n.Dict? then Key else Item
  }

  function Print(n: Node): string {
    match n
    case Integer(text) => "i" + (text + "e")
    case Str(prefix, body) => prefix + (":" + body)
    case List(items) => "l" + (PrintAll(items) + "e")
    case Dict(items) => "d" + (PrintAll(items) + "e")
  }

  function PrintAll(items: Nodes): string {
    match items
    case Nil => ""
    case Cons(n, rest) => Print(n) + PrintAll(rest)
  }

  /** The digits of an integer's text, without its sign. */
  function Magnitude(text: string): string {
    if text != "" && text[0] == '-' then text[1..] else text
  }

  predicate IntegerOk(text: string) {
    AllNumeric(Magnitude(text)) && 1 <= |Magnitude(text)| <= 20
  }

  predicate StrOk(prefix: string, body: string) {
    AllNumeric(prefix) && 1 <= |prefix| <= MAX_HEADER + 1 && Numbers.Value(prefix) == |body|
  }

  predicate Ok(n: Node) {
    match n
    case Integer(text) => IntegerOk(text)
    case Str(prefix, body) => StrOk(prefix, body)
    case List(items) => AllOk(items, Item)
    case Dict(items) => AllOk(items, Key)
  }

  predicate AllOk(items: Nodes, slot: Slot) {
    match items
    case Nil => slot != Value
    case Cons(n, rest) => Ok(n) && (slot == Key ==> n.Str?) && AllOk(rest, NextSlot(slot))
  }

  /** The number of tokens of a tree, without the one that ends the token array. */
  function Count(n: Node): (c: nat)
    ensures c >= 1
  {
    match n
    case Integer(_) => 1
    case Str(_, _) => 1
    case List(items) => CountAll(items) + 2
    case Dict(items) => CountAll(items) + 2
  }

  function CountAll(items: Nodes): nat {
    match items
    case Nil => 0
    case Cons(n, rest) => Count(n) + CountAll(rest)
  }

  /** How deep containers are nested. */
  function Height(n: Node): nat {
    match n
    case Integer(_) => 0
    case Str(_, _) => 0
    case List(items) => 1 + HeightAll(items)
    case Dict(items) => 1 + HeightAll(items)
  }

  function HeightAll(items: Nodes): nat {
    match items
    case Nil => 0
    case Cons(n, rest) => if Height(n) > HeightAll(rest) then Height(n) else HeightAll(rest)
  }

  function Tokens(n: Node, offset: nat): (ts: seq<Token>)
    ensures |ts| == Count(n)
  {
    match n
    case Integer(_) => [Token(offset, 1, IntegerToken, 0)]
    case Str(prefix, _) => [Token(offset, 1, StringToken, if prefix == "" then 0 else |prefix| - 1)]
    case List(items) => Container(ListToken, items, offset)
    case Dict(items) => Container(DictToken, items, offset)
  }

  function Container(kind: Kind, items: Nodes, offset: nat): (ts: seq<Token>)
    ensures |ts| == CountAll(items) + 2
    decreases items, 1
  {
    [Token(offset, CountAll(items) + 2, kind, 0)]
    + (TokensAll(items, offset + 1) + [Token(offset + 1 + |PrintAll(items)|, 1, EndToken, 0)])
  }

  function TokensAll(items: Nodes, offset: nat): (ts: seq<Token>)
    ensures |ts| == CountAll(items)
    decreases items, 0
  {
    match items
    case Nil => []
    case Cons(n, rest) => Tokens(n, offset) + TokensAll(rest, offset + |Print(n)|)
  }

  /** s holds t from pos on. */
  predicate At(s: string, pos: nat, t: string) {
    pos + |t| <= |s| && s[pos..pos + |t|] == t
  }

  lemma AtSplit(s: string, pos: nat, a: string, b: string)
    ensures At(s, pos, a + b) <==> At(s, pos, a) && At(s, pos + |a|, b)
  {
    if At(s, pos, a + b) {
      assert s[pos..pos + |a|] == (a + b)[..|a|] == a;
      assert s[pos + |a|..pos + |a + b|] == (a + b)[|a|..] == b;
    }
  }

  lemma AtChar(s: string, pos: nat, c: char)
    ensures At(s, pos, [c]) <==> pos < |s| && s[pos] == c
  {
  }

  /** Every token stands for at least one byte. */
  lemma {:induction false} CountIsAtMostLength(n: Node)
    requires Ok(n)
    ensures Count(n) <= |Print(n)|
    decreases n
  {
    match n
    case Integer(_) =>
    case Str(_, _) =>
    case List(items) => CountAllIsAtMostLength(items, Item);
    case Dict(items) => CountAllIsAtMostLength(items, Key);
  }

  lemma {:induction false} CountAllIsAtMostLength(items: Nodes, slot: Slot)
    requires AllOk(items, slot)
    ensures CountAll(items) <= |PrintAll(items)|
    decreases items
  {
    match items
    case Nil =>
    case Cons(n, rest) =>
      CountIsAtMostLength(n);
      CountAllIsAtMostLength(rest, NextSlot(slot));
  }
}
