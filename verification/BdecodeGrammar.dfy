/** The parse loop reads every well-formed tree within its limits, and leaves exactly the
    preorder listing of it behind. */
module BdecodeGrammar {
  import opened Options
  import opened Numbers
  import opened Grammar
  import opened Bdecode

  /** The state behind an item. */
  function AfterNode(s: State, n: Node): State
    requires TopIsSane(s)
  {
    State(s.pos + |Print(n)|, s.tokens + Tokens(n, s.pos), Flip(s), s.budget - Count(n))
  }

  function Go(buf: string, limit: nat, s: State): Outcome
    requires Sane(buf, s)
  {
    if s.stack == [] then Finished(s) else Run(buf, limit, s)
  }

  ghost predicate Ready(buf: string, limit: nat, s: State, n: Node) {
    && Sane(buf, s)
    && At(buf, s.pos, Print(n))
    && Ok(n)
    && |s.stack| + Height(n) < limit
    && Count(n) <= s.budget
    && (SlotOf(s) == Key ==> n.Str?)
  }

  lemma StepLeaf(buf: string, limit: nat, s: State, n: Node)
    requires Sane(buf, s) && s.pos < |buf| && |s.stack| < limit && s.budget > 0
    requires Count(n) == 1
    requires s.pos + |Print(n)| <= |buf|
    requires Dispatch(buf, s.(budget := s.budget - 1)) == Parsed(AfterNode(s, n))
    ensures Run(buf, limit, s) == Go(buf, limit, AfterNode(s, n))
  {
    var next := AfterNode(s, n);
    assert Sane(buf, next);
    assert Step(buf, limit, s) == Parsed(next);
  }

  lemma RunInteger(buf: string, limit: nat, s: State, text: string)
    requires Ready(buf, limit, s, Integer(text))
    ensures Run(buf, limit, s) == Go(buf, limit, AfterNode(s, Integer(text)))
  {
    hide Run, Step, DigitRun, Numbers.Value;
    var n := Integer(text);
    AtSplit(buf, s.pos, "i", text + "e");
    AtSplit(buf, s.pos + 1, text, "e");
    AtChar(buf, s.pos, 'i');
    AtChar(buf, s.pos + 1 + |text|, 'e');
    ScanInteger(buf, s.pos + 1, text);
    var s1 := s.(budget := s.budget - 1);
    assert Dispatch(buf, s1) == ReadInteger(buf, s1);
    StepLeaf(buf, limit, s, n);
  }

  lemma ScanInteger(buf: string, pos: nat, text: string)
    requires At(buf, pos, text) && IntegerOk(text)
    requires pos + |text| < |buf| && buf[pos + |text|] == 'e'
    ensures IntegerScan(buf, pos) == Scan(pos + |text|, None)
  {
    var m := Magnitude(text);
    var first := pos + |text| - |m|;
    assert forall i :: 0 <= i < |text| ==> buf[pos + i] == text[i];
    assert forall i :: 0 <= i < |m| ==> m[i] == text[|text| - |m| + i];
    assert forall i :: first <= i < first + |m| ==> buf[i] == m[i - first];
    DigitRunIs(buf, first, |m|);
    assert text[0] == buf[pos];
  }

  lemma RunString(buf: string, limit: nat, s: State, prefix: string, body: string)
    requires Ready(buf, limit, s, Str(prefix, body))
    ensures Run(buf, limit, s) == Go(buf, limit, AfterNode(s, Str(prefix, body)))
  {
    hide Run, Step, ParseFrom, Numbers.Value;
    AtSplit(buf, s.pos, prefix, ":" + body);
    AtSplit(buf, s.pos + |prefix|, ":", body);
    AtChar(buf, s.pos + |prefix|, ':');
    ParsePrefix(buf, s.pos, prefix);
    var s1 := s.(budget := s.budget - 1);
    DispatchString(buf, s1, prefix, body);
    StepLeaf(buf, limit, s, Str(prefix, body));
  }

  lemma DispatchString(buf: string, s: State, prefix: string, body: string)
    requires Sane(buf, s) && s.pos + |prefix| + 1 + |body| <= |buf| && |prefix| > 0
    requires |prefix| <= MAX_HEADER + 1 && Numeric(buf[s.pos])
    requires ParseFrom(buf, s.pos + 1, |buf|, ':', DigitOf(buf[s.pos])) == Parse(|body|, s.pos + |prefix|, None)
    ensures Dispatch(buf, s) == Parsed(AfterNode(s.(budget := s.budget + 1), Str(prefix, body)))
  {
    hide ParseFrom, Numbers.Value;
    assert |Print(Str(prefix, body))| == |prefix| + 1 + |body|;
    assert Dispatch(buf, s) == ReadString(buf, s);
  }

  lemma ParsePrefix(buf: string, pos: nat, prefix: string)
    requires At(buf, pos, prefix) && AllNumeric(prefix) && 1 <= |prefix| <= MAX_HEADER + 1
    requires pos + |prefix| < |buf| && buf[pos + |prefix|] == ':'
    ensures Numeric(buf[pos])
    ensures ParseFrom(buf, pos + 1, |buf|, ':', DigitOf(buf[pos])) == Parse(Numbers.Value(prefix), pos + |prefix|, None)
  {
    assert buf[pos] == prefix[0];
    var rest := prefix[1..];
    assert buf[pos + 1..pos + 1 + |rest|] == rest;
    assert prefix == prefix[..1] + rest;
    assert prefix[..1][..0] == "";
    assert Numbers.Value(prefix[..1]) == DigitOf(prefix[0]);
    ParseDigits(buf, pos + 1, |buf|, ':', prefix[..1], rest);
    ValueBound(prefix);
    PowerAtMost(|prefix|);
  }

  lemma PowerAtMost(k: nat)
    requires k <= 8
    ensures Power10(k) <= 100000000
  {
    assert Power10(2) == 100;
    assert Power10(4) == 100 * Power10(2);
    assert Power10(6) == 100 * Power10(4);
    assert Power10(8) == 100 * Power10(6);
    assert Power10(1) == 10 && Power10(3) == 10 * Power10(2);
    assert Power10(5) == 10 * Power10(4) && Power10(7) == 10 * Power10(6);
  }

  lemma RunOpen(buf: string, limit: nat, s: State, kind: Kind)
    requires Sane(buf, s) && s.pos < |buf| && |s.stack| < limit && s.budget > 0
    requires SlotOf(s) != Key
    requires (kind == ListToken && buf[s.pos] == 'l') || (kind == DictToken && buf[s.pos] == 'd')
    ensures Run(buf, limit, s) == Run(buf, limit, OpenContainer(s.(budget := s.budget - 1), kind))
  {
    var s1 := s.(budget := s.budget - 1);
    assert Dispatch(buf, s1) == More(OpenContainer(s1, kind));
  }

  /** The state behind a container whose remaining items were read. */
  function AfterItems(s: State, items: Nodes): State
    requires s.stack != [] && TopIsSane(s)
  {
    var end := s.pos + |PrintAll(items)|;
    var tokens := s.tokens + (TokensAll(items, s.pos) + [Token(end, 1, EndToken, 0)]);
    var top := s.stack[|s.stack| - 1].token;
    State(end + 1, tokens[top := tokens[top].(next := |tokens| - top)],
          s.stack[..|s.stack| - 1], s.budget - CountAll(items) - 1)
  }

  ghost predicate ItemsReady(buf: string, limit: nat, s: State, items: Nodes) {
    && Sane(buf, s)
    && s.stack != []
    && At(buf, s.pos, PrintAll(items) + "e")
    && AllOk(items, SlotOf(s))
    && |s.stack| + HeightAll(items) < limit
    && CountAll(items) + 1 <= s.budget
    && |s.tokens| + CountAll(items) + 1 - s.stack[|s.stack| - 1].token <= MAX_NEXT_ITEM
  }

  lemma RunClose(buf: string, limit: nat, s: State)
    requires ItemsReady(buf, limit, s, Nil)
    ensures Run(buf, limit, s) == Go(buf, limit, AfterItems(s, Nil))
  {
    hide CloseContainer, AfterItems;
    AtEnd(buf, limit, s);
    var s1 := s.(budget := s.budget - 1);
    CloseIs(s);
    assert Dispatch(buf, s1) == CloseContainer(s1);
  }

  lemma AtEnd(buf: string, limit: nat, s: State)
    requires ItemsReady(buf, limit, s, Nil)
    ensures s.pos < |buf| && buf[s.pos] == 'e'
  {
    assert PrintAll(Nil) + "e" == "e";
    AtChar(buf, s.pos, 'e');
  }

  lemma CloseIs(s: State)
    requires s.stack != [] && TopIsSane(s) && SlotOf(s) != Slot.Value && s.budget > 0
    requires |s.tokens| + 1 - s.stack[|s.stack| - 1].token <= MAX_NEXT_ITEM
    ensures CloseContainer(s.(budget := s.budget - 1)) == Parsed(AfterItems(s, Nil))
  {
    assert s.tokens + (TokensAll(Nil, s.pos) + [Token(s.pos, 1, EndToken, 0)]) == s.tokens + [Token(s.pos, 1, EndToken, 0)];
  }

  lemma {:induction false} RunNode(buf: string, limit: nat, s: State, n: Node)
    requires Ready(buf, limit, s, n) && |buf| <= MAX_OFFSET
    ensures Run(buf, limit, s) == Go(buf, limit, AfterNode(s, n))
    decreases n
  {
    hide Run, Step, Tokens;
    match n
    case Integer(text) => RunInteger(buf, limit, s, text);
    case Str(prefix, body) => RunString(buf, limit, s, prefix, body);
    case List(items) =>
      AtSplit(buf, s.pos, "l", PrintAll(items) + "e");
      AtChar(buf, s.pos, 'l');
      RunOpen(buf, limit, s, ListToken);
      OpenIsReady(buf, limit, s, n, items, ListToken);
      RunItems(buf, limit, OpenContainer(s.(budget := s.budget - 1), ListToken), items);
      ContainerTokens(s, n, items, ListToken);
    case Dict(items) =>
      AtSplit(buf, s.pos, "d", PrintAll(items) + "e");
      AtChar(buf, s.pos, 'd');
      RunOpen(buf, limit, s, DictToken);
      OpenIsReady(buf, limit, s, n, items, DictToken);
      RunItems(buf, limit, OpenContainer(s.(budget := s.budget - 1), DictToken), items);
      ContainerTokens(s, n, items, DictToken);
  }

  predicate IsContainer(n: Node, items: Nodes, kind: Kind) {
    (n == List(items) && kind == ListToken) || (n == Dict(items) && kind == DictToken)
  }

  lemma OpenIsReady(buf: string, limit: nat, s: State, n: Node, items: Nodes, kind: Kind)
    requires Ready(buf, limit, s, n) && |buf| <= MAX_OFFSET
    requires IsContainer(n, items, kind)
    requires At(buf, s.pos + 1, PrintAll(items) + "e")
    ensures ItemsReady(buf, limit, OpenContainer(s.(budget := s.budget - 1), kind), items)
  {
    CountIsAtMostLength(n);
  }

  lemma ContainerTokens(s: State, n: Node, items: Nodes, kind: Kind)
    requires TopIsSane(s) && IsContainer(n, items, kind)
    ensures AfterItems(OpenContainer(s.(budget := s.budget - 1), kind), items) == AfterNode(s, n)
  {
    hide TokensAll, PrintAll, CountAll, Tokens, Print, Flip, Count, ContainerRest, SlotOf, AfterItems;
    var s1 := OpenContainer(s.(budget := s.budget - 1), kind);
    var open, inner := Token(s.pos, 0, kind, 0), ContainerRest(items, s.pos);
    ContainerEnds(s1, items);
    Patched(s.tokens, open, inner, open.(next := |inner| + 1));
    TokensOfContainer(n, items, kind, s.pos);
    FlipIgnoresBudget(s, s.budget - 1);
    assert s1.stack[..|s.stack|] == Flip(s);
  }

  lemma FlipIgnoresBudget(s: State, budget: int)
    requires TopIsSane(s)
    ensures Flip(s.(budget := budget)) == Flip(s)
  {
  }

  lemma ContainerEnds(s: State, items: Nodes)
    requires s.stack != [] && TopIsSane(s) && s.pos > 0
    ensures var tokens, top := s.tokens + ContainerRest(items, s.pos - 1), s.stack[|s.stack| - 1].token;
      AfterItems(s, items)
        == State(s.pos + |PrintAll(items)| + 1, tokens[top := tokens[top].(next := |tokens| - top)],
                 s.stack[..|s.stack| - 1], s.budget - CountAll(items) - 1)
  {
    hide TokensAll, PrintAll, CountAll;
  }

  function ContainerRest(items: Nodes, offset: nat): (ts: seq<Token>)
    ensures |ts| == CountAll(items) + 1
  {
    TokensAll(items, offset + 1) + [Token(offset + 1 + |PrintAll(items)|, 1, EndToken, 0)]
  }

  lemma TokensOfContainer(n: Node, items: Nodes, kind: Kind, offset: nat)
    requires IsContainer(n, items, kind)
    ensures Tokens(n, offset) == [Token(offset, CountAll(items) + 2, kind, 0)] + ContainerRest(items, offset)
    ensures |Print(n)| == |PrintAll(items)| + 2 && Count(n) == CountAll(items) + 2
  {
  }

  lemma Patched(a: seq<Token>, x: Token, inner: seq<Token>, y: Token)
    ensures (a + [x] + inner)[|a| := y] == a + ([y] + inner)
    ensures (a + [x] + inner)[|a|] == x
  {
  }

  lemma {:induction false} RunItems(buf: string, limit: nat, s: State, items: Nodes)
    requires ItemsReady(buf, limit, s, items) && |buf| <= MAX_OFFSET
    ensures Run(buf, limit, s) == Go(buf, limit, AfterItems(s, items))
    decreases items
  {
    match items
    case Nil => RunClose(buf, limit, s);
    case Cons(n, rest) =>
      HeadIsReady(buf, limit, s, n, rest);
      RunNode(buf, limit, s, n);
      RunItems(buf, limit, AfterNode(s, n), rest);
      ItemsTokens(s, n, rest);
  }

  lemma FlipSlot(s: State, s': State)
    requires TopIsSane(s) && TopIsSane(s') && s.stack != []
    requires s'.stack == Flip(s) && s.tokens <= s'.tokens
    ensures SlotOf(s') == NextSlot(SlotOf(s))
  {
    var top := s.stack[|s.stack| - 1].token;
    assert s'.tokens[top] == s.tokens[top];
  }

  lemma HeadIsReady(buf: string, limit: nat, s: State, n: Node, rest: Nodes)
    requires ItemsReady(buf, limit, s, Cons(n, rest))
    ensures Ready(buf, limit, s, n)
    ensures ItemsReady(buf, limit, AfterNode(s, n), rest)
  {
    assert PrintAll(Cons(n, rest)) + "e" == Print(n) + (PrintAll(rest) + "e");
    AtSplit(buf, s.pos, Print(n), PrintAll(rest) + "e");
    FlipSlot(s, AfterNode(s, n));
  }

  lemma ItemsTokens(s: State, n: Node, rest: Nodes)
    requires s.stack != [] && TopIsSane(s)
    ensures AfterItems(AfterNode(s, n), rest) == AfterItems(s, Cons(n, rest))
  {
    hide Tokens, Print, Count;
    var s1 := AfterNode(s, n);
    var end := Token(s1.pos + |PrintAll(rest)|, 1, EndToken, 0);
    assert s1.tokens + (TokensAll(rest, s1.pos) + [end]) == s.tokens + (Tokens(n, s.pos) + TokensAll(rest, s1.pos) + [end]);
    assert Flip(s)[..|s.stack| - 1] == s.stack[..|s.stack| - 1];
  }
}
