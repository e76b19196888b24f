/** The same language as a recursive-descent parser, and with it the exact condition
    under which bdecode() succeeds: the buffer starts with a well-formed tree within the
    limits of the call. */
module BdecodeReference {
  import opened Options
  import opened Numbers
  import opened Grammar
  import opened Bdecode
  import opened BdecodeGrammar

  function ParseNode(buf: string, pos: nat, depth: nat, limit: nat, budget: int): (r: Option<Node>)
    requires pos <= |buf|
    ensures r.Some? ==> pos + |Print(r.value)| <= |buf|
    decreases budget, 0
  {
    if pos == |buf| || depth >= limit || budget <= 0 then None
    else if buf[pos] == 'i' then
      var scan := IntegerScan(buf, pos + 1);
      if scan.error.Some? then None else Some(Integer(buf[pos + 1..scan.pos]))
    else if buf[pos] == 'l' then
      match ParseItems(buf, pos + 1, depth + 1, limit, budget - 1, Item)
      case None => None
      case Some(items) => Some(List(items))
    else if buf[pos] == 'd' then
      match ParseItems(buf, pos + 1, depth + 1, limit, budget - 1, Key)
      case None => None
      case Some(items) => Some(Dict(items))
    else if Numeric(buf[pos]) then ParseStr(buf, pos)
    else None
  }

  function ParseStr(buf: string, pos: nat): (r: Option<Node>)
    requires pos < |buf| && Numeric(buf[pos])
    ensures r.Some? ==> pos + |Print(r.value)| <= |buf| && r.value.Str?
  {
    var p := ParseFrom(buf, pos + 1, |buf|, ':', DigitOf(buf[pos]));
    if p.error.Some? || p.pos == |buf| || p.val > |buf| - p.pos - 1 || p.pos - pos > MAX_HEADER + 1 then None
    else Some(Str(buf[pos..p.pos], buf[p.pos + 1..p.pos + 1 + p.val]))
  }

  /** The rest of a container whose next item goes into slot, with its closing e. */
  function ParseItems(buf: string, pos: nat, depth: nat, limit: nat, budget: int, slot: Slot): (r: Option<Nodes>)
    requires pos <= |buf|
    ensures r.Some? ==> pos + |PrintAll(r.value)| < |buf|
    decreases budget, 1
  {
    if pos == |buf| || depth >= limit || budget <= 0 then None
    else if buf[pos] == 'e' then if slot == Slot.Value then None else Some(Nil)
    else if slot == Key && !Numeric(buf[pos]) then None
    else
      match ParseNode(buf, pos, depth, limit, budget)
      case None => None
      case Some(n) =>
        match ParseItems(buf, pos + |Print(n)|, depth, limit, budget - Count(n), NextSlot(slot))
        case None => None
        case Some(rest) => Some(Cons(n, rest))
  }

  lemma {:induction false} ParsedDigits(s: string, start: nat, end: nat, delimiter: char, before: string)
    requires start <= end <= |s|
    requires AllNumeric(before) && Numbers.Value(before) <= INT64_MAX
    requires ParseFrom(s, start, end, delimiter, Numbers.Value(before)).error == None
    ensures var p := ParseFrom(s, start, end, delimiter, Numbers.Value(before));
      && AllNumeric(before + s[start..p.pos])
      && p.val == Numbers.Value(before + s[start..p.pos])
      && (p.pos < end ==> s[p.pos] == delimiter)
    decreases end - start
  {
    hide Numbers.Value, ParseFrom;
    if start == end || s[start] == delimiter {
      ParseEnds(s, start, end, delimiter, Numbers.Value(before));
      assert before + s[start..start] == before;
    } else {
      ParseGoesOn(s, start, end, delimiter, Numbers.Value(before));
      ValueConcat(before, s[start]);
      ParsedDigits(s, start + 1, end, delimiter, before + [s[start]]);
      var p := ParseFrom(s, start, end, delimiter, Numbers.Value(before));
      assert before + s[start..p.pos] == before + [s[start]] + s[start + 1..p.pos];
    }
  }

  lemma ParseEnds(s: string, start: nat, end: nat, delimiter: char, val: int)
    requires start <= end <= |s| && (start == end || s[start] == delimiter)
    ensures ParseFrom(s, start, end, delimiter, val) == Parse(val, start, None)
  {
  }

  lemma ParseGoesOn(s: string, start: nat, end: nat, delimiter: char, val: int)
    requires start < end <= |s| && s[start] != delimiter
    requires ParseFrom(s, start, end, delimiter, val).error == None
    ensures Numeric(s[start]) && val * 10 + DigitOf(s[start]) <= INT64_MAX
    ensures ParseFrom(s, start, end, delimiter, val)
      == ParseFrom(s, start + 1, end, delimiter, val * 10 + DigitOf(s[start]))
  {
  }

  lemma StrSound(buf: string, pos: nat)
    requires pos < |buf| && Numeric(buf[pos]) && ParseStr(buf, pos).Some?
    ensures var n := ParseStr(buf, pos).value; At(buf, pos, Print(n)) && Ok(n)
  {
    hide ParseFrom, Numbers.Value;
    var p := ParseFrom(buf, pos + 1, |buf|, ':', DigitOf(buf[pos]));
    PrefixSound(buf, pos);
    StrText(buf, pos, p.pos, p.val);
  }

  lemma PrefixSound(buf: string, pos: nat)
    requires pos < |buf| && Numeric(buf[pos])
    requires ParseFrom(buf, pos + 1, |buf|, ':', DigitOf(buf[pos])).error == None
    ensures var p := ParseFrom(buf, pos + 1, |buf|, ':', DigitOf(buf[pos]));
      && AllNumeric(buf[pos..p.pos]) && p.val == Numbers.Value(buf[pos..p.pos])
      && (p.pos < |buf| ==> buf[p.pos] == ':')
  {
    var first := buf[pos..pos + 1];
    assert first[..0] == "";
    ParsedDigits(buf, pos + 1, |buf|, ':', first);
    var p := ParseFrom(buf, pos + 1, |buf|, ':', DigitOf(buf[pos]));
    assert first + buf[pos + 1..p.pos] == buf[pos..p.pos];
  }

  lemma StrText(buf: string, pos: nat, colon: nat, size: nat)
    requires pos <= colon < |buf| && buf[colon] == ':' && colon + 1 + size <= |buf|
    ensures At(buf, pos, Print(Str(buf[pos..colon], buf[colon + 1..colon + 1 + size])))
  {
    var prefix, body := buf[pos..colon], buf[colon + 1..colon + 1 + size];
    AtSplit(buf, pos, prefix, ":" + body);
    AtSplit(buf, colon, ":", body);
  }

  lemma IntegerSound(buf: string, pos: nat)
    requires pos < |buf| && buf[pos] == 'i' && IntegerScan(buf, pos + 1).error == None
    ensures var n := Integer(buf[pos + 1..IntegerScan(buf, pos + 1).pos]); At(buf, pos, Print(n)) && Ok(n)
  {
    hide DigitRun, Numbers.Value, IntegerOk, IntegerScan;
    var text := buf[pos + 1..IntegerScan(buf, pos + 1).pos];
    AtSplit(buf, pos, "i", text + "e");
    AtSplit(buf, pos + 1, text, "e");
    IntegerTextOk(buf, pos);
  }

  lemma IntegerTextOk(buf: string, pos: nat)
    requires pos < |buf| && IntegerScan(buf, pos + 1).error == None
    ensures IntegerOk(buf[pos + 1..IntegerScan(buf, pos + 1).pos])
  {
    hide DigitRun, Numbers.Value;
    var stop := IntegerScan(buf, pos + 1).pos;
    var first := if buf[pos + 1] == '-' then pos + 2 else pos + 1;
    assert AllNumeric(buf[first..stop]);
    assert Magnitude(buf[pos + 1..stop]) == buf[first..stop];
  }

  lemma {:induction false} NodeSound(buf: string, pos: nat, depth: nat, limit: nat, budget: int)
    requires pos <= |buf| && ParseNode(buf, pos, depth, limit, budget).Some?
    ensures var n := ParseNode(buf, pos, depth, limit, budget).value;
      At(buf, pos, Print(n)) && Ok(n) && depth + Height(n) < limit && Count(n) <= budget
    decreases budget, 0
  {
    if buf[pos] == 'i' {
      IntegerSound(buf, pos);
    } else if buf[pos] == 'l' {
      ItemsSound(buf, pos + 1, depth + 1, limit, budget - 1, Item);
      ListSound(buf, pos, depth, limit, budget);
    } else if buf[pos] == 'd' {
      ItemsSound(buf, pos + 1, depth + 1, limit, budget - 1, Key);
      DictSound(buf, pos, depth, limit, budget);
    } else {
      StrSound(buf, pos);
    }
  }

  /** The text of the items of a container, and that they are well-formed and within the limits. */
  predicate ItemsAreSound(buf: string, pos: nat, depth: nat, limit: nat, budget: int, slot: Slot, items: Nodes) {
    && At(buf, pos, PrintAll(items) + "e") && AllOk(items, slot)
    && depth + HeightAll(items) < limit && CountAll(items) < budget
  }

  lemma ListSound(buf: string, pos: nat, depth: nat, limit: nat, budget: int)
    requires pos < |buf| && buf[pos] == 'l' && ParseNode(buf, pos, depth, limit, budget).Some?
    requires ItemsAreSound(buf, pos + 1, depth + 1, limit, budget - 1, Item,
                           ParseItems(buf, pos + 1, depth + 1, limit, budget - 1, Item).value)
    ensures var n := ParseNode(buf, pos, depth, limit, budget).value;
      At(buf, pos, Print(n)) && Ok(n) && depth + Height(n) < limit && Count(n) <= budget
  {
    AtSplit(buf, pos, "l", PrintAll(ParseItems(buf, pos + 1, depth + 1, limit, budget - 1, Item).value) + "e");
  }

  lemma DictSound(buf: string, pos: nat, depth: nat, limit: nat, budget: int)
    requires pos < |buf| && buf[pos] == 'd' && ParseNode(buf, pos, depth, limit, budget).Some?
    requires ItemsAreSound(buf, pos + 1, depth + 1, limit, budget - 1, Key,
                           ParseItems(buf, pos + 1, depth + 1, limit, budget - 1, Key).value)
    ensures var n := ParseNode(buf, pos, depth, limit, budget).value;
      At(buf, pos, Print(n)) && Ok(n) && depth + Height(n) < limit && Count(n) <= budget
  {
    AtSplit(buf, pos, "d", PrintAll(ParseItems(buf, pos + 1, depth + 1, limit, budget - 1, Key).value) + "e");
  }

  lemma {:induction false} ItemsSound(buf: string, pos: nat, depth: nat, limit: nat, budget: int, slot: Slot)
    requires pos <= |buf| && ParseItems(buf, pos, depth, limit, budget, slot).Some?
    ensures ItemsAreSound(buf, pos, depth, limit, budget, slot, ParseItems(buf, pos, depth, limit, budget, slot).value)
    decreases budget, 1
  {
    hide ParseNode, Print;
    if buf[pos] == 'e' {
      assert PrintAll(Nil) + "e" == "e";
    } else {
      NodeSound(buf, pos, depth, limit, budget);
      var n := ParseNode(buf, pos, depth, limit, budget).value;
      ItemsSound(buf, pos + |Print(n)|, depth, limit, budget - Count(n), NextSlot(slot));
      var rest := ParseItems(buf, pos + |Print(n)|, depth, limit, budget - Count(n), NextSlot(slot)).value;
      ConsAt(buf, pos, n, rest);
      KeysAreStrings(buf, pos, depth, limit, budget);
    }
  }

  lemma ConsAt(buf: string, pos: nat, n: Node, rest: Nodes)
    ensures At(buf, pos, PrintAll(Cons(n, rest)) + "e")
      <==> At(buf, pos, Print(n)) && At(buf, pos + |Print(n)|, PrintAll(rest) + "e")
  {
    assert PrintAll(Cons(n, rest)) + "e" == Print(n) + (PrintAll(rest) + "e");
    AtSplit(buf, pos, Print(n), PrintAll(rest) + "e");
  }

  lemma KeysAreStrings(buf: string, pos: nat, depth: nat, limit: nat, budget: int)
    requires pos < |buf| && ParseNode(buf, pos, depth, limit, budget).Some?
    ensures Numeric(buf[pos]) <==> ParseNode(buf, pos, depth, limit, budget).value.Str?
  {
  }

  // ----- and it finds every tree, so the grammar is unambiguous -----

  lemma {:induction false} NodeComplete(buf: string, pos: nat, depth: nat, limit: nat, budget: int, n: Node)
    requires At(buf, pos, Print(n)) && Ok(n) && depth + Height(n) < limit && Count(n) <= budget
    ensures ParseNode(buf, pos, depth, limit, budget) == Some(n)
    decreases n
  {
    hide ParseNode, ParseItems, IntegerScan, Numbers.Value;
    match n
    case Integer(text) => IntegerParse(buf, pos, depth, limit, budget, text);
    case Str(prefix, body) => StrParse(buf, pos, depth, limit, budget, prefix, body);
    case List(items) =>
      AtSplit(buf, pos, "l", PrintAll(items) + "e");
      AtChar(buf, pos, 'l');
      ItemsComplete(buf, pos + 1, depth + 1, limit, budget - 1, items, Item);
      ContainerParse(buf, pos, depth, limit, budget, n);
    case Dict(items) =>
      AtSplit(buf, pos, "d", PrintAll(items) + "e");
      AtChar(buf, pos, 'd');
      ItemsComplete(buf, pos + 1, depth + 1, limit, budget - 1, items, Key);
      ContainerParse(buf, pos, depth, limit, budget, n);
  }

  /** ParseNode() by the kind of the tree it is to find. */
  lemma ContainerParse(buf: string, pos: nat, depth: nat, limit: nat, budget: int, n: Node)
    requires pos < |buf| && depth < limit && budget > 0
    requires (n.List? && buf[pos] == 'l' && ParseItems(buf, pos + 1, depth + 1, limit, budget - 1, Item) == Some(n.items))
      || (n.Dict? && buf[pos] == 'd' && ParseItems(buf, pos + 1, depth + 1, limit, budget - 1, Key) == Some(n.items))
    ensures ParseNode(buf, pos, depth, limit, budget) == Some(n)
  {
  }

  lemma IntegerParse(buf: string, pos: nat, depth: nat, limit: nat, budget: int, text: string)
    requires At(buf, pos, Print(Integer(text))) && IntegerOk(text) && depth < limit && budget > 0
    ensures ParseNode(buf, pos, depth, limit, budget) == Some(Integer(text))
  {
    IntegerComplete(buf, pos, text);
  }

  lemma StrParse(buf: string, pos: nat, depth: nat, limit: nat, budget: int, prefix: string, body: string)
    requires At(buf, pos, Print(Str(prefix, body))) && StrOk(prefix, body) && depth < limit && budget > 0
    ensures ParseNode(buf, pos, depth, limit, budget) == Some(Str(prefix, body))
  {
    StrComplete(buf, pos, prefix, body);
  }

  lemma IntegerComplete(buf: string, pos: nat, text: string)
    requires At(buf, pos, Print(Integer(text))) && IntegerOk(text)
    ensures pos < |buf| && buf[pos] == 'i'
    ensures IntegerScan(buf, pos + 1) == Scan(pos + 1 + |text|, None) && buf[pos + 1..pos + 1 + |text|] == text
  {
    AtSplit(buf, pos, "i", text + "e");
    AtSplit(buf, pos + 1, text, "e");
    AtChar(buf, pos, 'i');
    AtChar(buf, pos + 1 + |text|, 'e');
    ScanInteger(buf, pos + 1, text);
  }

  lemma StrComplete(buf: string, pos: nat, prefix: string, body: string)
    requires At(buf, pos, Print(Str(prefix, body))) && StrOk(prefix, body)
    ensures pos < |buf| && Numeric(buf[pos]) && ParseStr(buf, pos) == Some(Str(prefix, body))
  {
    AtSplit(buf, pos, prefix, ":" + body);
    AtSplit(buf, pos + |prefix|, ":", body);
    AtChar(buf, pos + |prefix|, ':');
    ParsePrefix(buf, pos, prefix);
  }

  lemma {:induction false} ItemsComplete(buf: string, pos: nat, depth: nat, limit: nat, budget: int, items: Nodes, slot: Slot)
    requires At(buf, pos, PrintAll(items) + "e") && AllOk(items, slot)
    requires depth + HeightAll(items) < limit && CountAll(items) < budget
    ensures ParseItems(buf, pos, depth, limit, budget, slot) == Some(items)
    decreases items
  {
    hide ParseItems, ParseNode, Print;
    match items
    case Nil => NilComplete(buf, pos, depth, limit, budget, slot);
    case Cons(n, rest) =>
      ConsAt(buf, pos, n, rest);
      NodeComplete(buf, pos, depth, limit, budget, n);
      ItemsComplete(buf, pos + |Print(n)|, depth, limit, budget - Count(n), rest, NextSlot(slot));
      ConsComplete(buf, pos, depth, limit, budget, n, rest, slot);
  }

  lemma NilComplete(buf: string, pos: nat, depth: nat, limit: nat, budget: int, slot: Slot)
    requires At(buf, pos, PrintAll(Nil) + "e") && slot != Slot.Value && depth < limit && budget > 0
    ensures ParseItems(buf, pos, depth, limit, budget, slot) == Some(Nil)
  {
    assert PrintAll(Nil) + "e" == "e";
    AtChar(buf, pos, 'e');
  }

  lemma ConsComplete(buf: string, pos: nat, depth: nat, limit: nat, budget: int, n: Node, rest: Nodes, slot: Slot)
    requires pos <= |buf| && depth < limit && budget > 0 && (slot == Key ==> n.Str?)
    requires ParseNode(buf, pos, depth, limit, budget) == Some(n)
    requires ParseItems(buf, pos + |Print(n)|, depth, limit, budget - Count(n), NextSlot(slot)) == Some(rest)
    ensures ParseItems(buf, pos, depth, limit, budget, slot) == Some(Cons(n, rest))
  {
    KeysAreStrings(buf, pos, depth, limit, budget);
    NoItemStartsWithE(buf, pos, depth, limit, budget);
  }

  lemma NoItemStartsWithE(buf: string, pos: nat, depth: nat, limit: nat, budget: int)
    requires pos < |buf| && ParseNode(buf, pos, depth, limit, budget).Some?
    ensures buf[pos] != 'e'
  {
  }

  /** Two well-formed trees at the same place of a buffer are the same tree. */
  lemma GrammarIsUnambiguous(buf: string, pos: nat, m: Node, n: Node)
    requires At(buf, pos, Print(m)) && At(buf, pos, Print(n)) && Ok(m) && Ok(n)
    ensures m == n
  {
    var limit, budget := Height(m) + Height(n) + 1, Count(m) + Count(n);
    NodeComplete(buf, pos, 0, limit, budget, m);
    NodeComplete(buf, pos, 0, limit, budget, n);
  }

  // ----- why there is no tree -----

  datatype Fault = Fault(error: Error, pos: nat)

  /** The buffer ends here, or one of the limits of the call is reached. */
  predicate AtLimit(buf: string, pos: nat, depth: nat, limit: nat, budget: int) {
    pos == |buf| || depth >= limit || budget <= 0
  }

  function LimitFault(buf: string, pos: nat, depth: nat, limit: nat): Fault {
    if pos == |buf| then Fault(UnexpectedEof, pos)
    else if depth >= limit then Fault(DepthExceeded, pos)
    else Fault(LimitExceeded, pos)
  }

  /** What is wrong where no item can be read, and where. */
  function NodeFault(buf: string, pos: nat, depth: nat, limit: nat, budget: int): Fault
    requires pos <= |buf| && ParseNode(buf, pos, depth, limit, budget) == None
    decreases budget, 0
  {
    if AtLimit(buf, pos, depth, limit, budget) then LimitFault(buf, pos, depth, limit)
    else if buf[pos] == 'i' then
      var scan := IntegerScan(buf, pos + 1);
      Fault(scan.error.value, scan.pos)
    else if buf[pos] == 'l' then ItemsFault(buf, pos + 1, depth + 1, limit, budget - 1, Item)
    else if buf[pos] == 'd' then ItemsFault(buf, pos + 1, depth + 1, limit, budget - 1, Key)
    else if Numeric(buf[pos]) then StrFault(buf, pos)
    else Fault(if buf[pos] == 'e' then UnexpectedEof else ExpectedValue, pos)
  }

  function StrFault(buf: string, pos: nat): Fault
    requires pos < |buf| && Numeric(buf[pos]) && ParseStr(buf, pos) == None
  {
    var p := ParseFrom(buf, pos + 1, |buf|, ':', DigitOf(buf[pos]));
    if pos + 1 == |buf| then Fault(UnexpectedEof, pos + 1)
    else if p.error.Some? then Fault(p.error.value, p.pos)
    else if p.pos == |buf| then Fault(ExpectedColon, p.pos)
    else if p.val > |buf| - p.pos - 1 then Fault(UnexpectedEof, p.pos)
    else Fault(LimitExceeded, p.pos + 1)
  }

  function ItemsFault(buf: string, pos: nat, depth: nat, limit: nat, budget: int, slot: Slot): Fault
    requires pos <= |buf| && ParseItems(buf, pos, depth, limit, budget, slot) == None
    decreases budget, 1
  {
    if AtLimit(buf, pos, depth, limit, budget) then LimitFault(buf, pos, depth, limit)
    else if buf[pos] == 'e' then Fault(ExpectedValue, pos)
    else if slot == Key && !Numeric(buf[pos]) then Fault(ExpectedDigit, pos)
    else
      match ParseNode(buf, pos, depth, limit, budget)
      case None => NodeFault(buf, pos, depth, limit, budget)
      case Some(n) => ItemsFault(buf, pos + |Print(n)|, depth, limit, budget - Count(n), NextSlot(slot))
  }

  // ----- the parse loop fails where the reference parser does -----

  predicate FailsWith(o: Outcome, f: Fault) {
    o.Failed? && o.error == f.error && o.errorPos == f.pos
  }

  predicate Stuck(buf: string, limit: nat, s: State) {
    AtLimit(buf, s.pos, |s.stack|, limit, s.budget)
  }

  lemma StuckFails(buf: string, limit: nat, s: State)
    requires Sane(buf, s) && Stuck(buf, limit, s)
    ensures FailsWith(Run(buf, limit, s), LimitFault(buf, s.pos, |s.stack|, limit))
  {
  }

  lemma DispatchFails(buf: string, limit: nat, s: State, e: Error, at: State, pos: nat)
    requires Sane(buf, s) && !Stuck(buf, limit, s)
    requires Dispatch(buf, s.(budget := s.budget - 1)) == Stop(Failed(at, e, pos))
    ensures FailsWith(Run(buf, limit, s), Fault(e, pos))
  {
    hide Dispatch, Unwind;
  }

  lemma BadKeyFails(buf: string, limit: nat, s: State)
    requires Sane(buf, s) && !Stuck(buf, limit, s)
    requires SlotOf(s) == Key && !Numeric(buf[s.pos]) && buf[s.pos] != 'e'
    ensures FailsWith(Run(buf, limit, s), Fault(ExpectedDigit, s.pos))
  {
    var s1 := s.(budget := s.budget - 1);
    DispatchFails(buf, limit, s, ExpectedDigit, s1, s.pos);
  }

  lemma MissingValueFails(buf: string, limit: nat, s: State)
    requires Sane(buf, s) && !Stuck(buf, limit, s) && s.stack != []
    requires SlotOf(s) == Slot.Value && buf[s.pos] == 'e'
    ensures FailsWith(Run(buf, limit, s), Fault(ExpectedValue, s.pos))
  {
    var s1 := s.(budget := s.budget - 1);
    assert Dispatch(buf, s1) == CloseContainer(s1);
    DispatchFails(buf, limit, s, ExpectedValue, s1, s.pos);
  }

  /** The place is not one where a key is due and something else comes. */
  predicate KeyOk(buf: string, s: State)
    requires Sane(buf, s)
  {
    SlotOf(s) == Key && s.pos < |buf| ==> Numeric(buf[s.pos])
  }

  lemma LeafFails(buf: string, limit: nat, s: State)
    requires Sane(buf, s) && !Stuck(buf, limit, s)
    requires ParseNode(buf, s.pos, |s.stack|, limit, s.budget) == None
    requires buf[s.pos] != 'l' && buf[s.pos] != 'd' && (buf[s.pos] == 'e' ==> s.stack == [])
    ensures Run(buf, limit, s).Failed?
    ensures KeyOk(buf, s) ==> FailsWith(Run(buf, limit, s), NodeFault(buf, s.pos, |s.stack|, limit, s.budget))
  {
    hide Run;
    var p := Dispatch(buf, s.(budget := s.budget - 1));
    assert p.Stop? && p.outcome.Failed?;
    DispatchFails(buf, limit, s, p.outcome.error, p.outcome.state, p.outcome.errorPos);
  }

  lemma OpenedState(buf: string, limit: nat, s: State, kind: Kind)
    requires Sane(buf, s) && !Stuck(buf, limit, s)
    requires (kind == ListToken && buf[s.pos] == 'l') || (kind == DictToken && buf[s.pos] == 'd')
    requires ParseNode(buf, s.pos, |s.stack|, limit, s.budget) == None
    ensures var o := OpenContainer(s.(budget := s.budget - 1), kind);
      && Sane(buf, o) && o.stack != [] && o.budget == s.budget - 1
      && ParseItems(buf, o.pos, |o.stack|, limit, o.budget, SlotOf(o)) == None
      && NodeFault(buf, s.pos, |s.stack|, limit, s.budget) == ItemsFault(buf, o.pos, |o.stack|, limit, o.budget, SlotOf(o))
  {
    var o := OpenContainer(s.(budget := s.budget - 1), kind);
    assert SlotOf(o) == if kind == DictToken then Key else Item;
  }

  /** Where there is no item the loop fails, and unless the place is a key's and something
      else is there, with the same error at the same place. */
  lemma {:induction false} NodeFails(buf: string, limit: nat, s: State)
    requires Sane(buf, s) && |buf| <= MAX_OFFSET
    requires ParseNode(buf, s.pos, |s.stack|, limit, s.budget) == None
    requires s.pos < |buf| && buf[s.pos] == 'e' ==> s.stack == []
    ensures Run(buf, limit, s).Failed?
    ensures KeyOk(buf, s) ==> FailsWith(Run(buf, limit, s), NodeFault(buf, s.pos, |s.stack|, limit, s.budget))
    decreases s.budget, 0
  {
    if Stuck(buf, limit, s) {
      StuckFails(buf, limit, s);
    } else if buf[s.pos] != 'l' && buf[s.pos] != 'd' {
      LeafFails(buf, limit, s);
    } else if SlotOf(s) == Key {
      BadKeyFails(buf, limit, s);
    } else {
      var kind := if buf[s.pos] == 'l' then ListToken else DictToken;
      OpenedState(buf, limit, s, kind);
      RunOpen(buf, limit, s, kind);
      ItemsFail(buf, limit, OpenContainer(s.(budget := s.budget - 1), kind));
    }
  }

  /** The rest of a container. */
  lemma {:induction false} ItemsFail(buf: string, limit: nat, s: State)
    requires Sane(buf, s) && |buf| <= MAX_OFFSET && s.stack != []
    requires ParseItems(buf, s.pos, |s.stack|, limit, s.budget, SlotOf(s)) == None
    ensures FailsWith(Run(buf, limit, s), ItemsFault(buf, s.pos, |s.stack|, limit, s.budget, SlotOf(s)))
    decreases s.budget, 1
  {
    hide Run, NodeFault;
    if Ends(buf, limit, s) {
      EndFails(buf, limit, s);
    } else if ParseNode(buf, s.pos, |s.stack|, limit, s.budget) == None {
      NodeFails(buf, limit, s);
    } else {
      var n := ParseNode(buf, s.pos, |s.stack|, limit, s.budget).value;
      HeadRuns(buf, limit, s, n);
      NextFails(buf, limit, s, n, AfterNode(s, n));
      ItemsFail(buf, limit, AfterNode(s, n));
    }
  }

  /** No further item of the innermost container starts here. */
  predicate Ends(buf: string, limit: nat, s: State)
    requires Sane(buf, s)
  {
    Stuck(buf, limit, s) || buf[s.pos] == 'e' || (SlotOf(s) == Key && !Numeric(buf[s.pos]))
  }

  lemma EndFails(buf: string, limit: nat, s: State)
    requires Sane(buf, s) && s.stack != [] && Ends(buf, limit, s)
    requires ParseItems(buf, s.pos, |s.stack|, limit, s.budget, SlotOf(s)) == None
    ensures FailsWith(Run(buf, limit, s), ItemsFault(buf, s.pos, |s.stack|, limit, s.budget, SlotOf(s)))
  {
    hide Run, ParseItems;
    NoItemHere(buf, s.pos, |s.stack|, limit, s.budget, SlotOf(s));
    if Stuck(buf, limit, s) {
      StuckFails(buf, limit, s);
    } else if buf[s.pos] == 'e' {
      MissingValueFails(buf, limit, s);
    } else {
      BadKeyFails(buf, limit, s);
    }
  }

  lemma NoItemHere(buf: string, pos: nat, depth: nat, limit: nat, budget: int, slot: Slot)
    requires pos <= |buf| && ParseItems(buf, pos, depth, limit, budget, slot) == None
    ensures !AtLimit(buf, pos, depth, limit, budget) && buf[pos] == 'e' ==> slot == Slot.Value
  {
  }

  lemma NextFails(buf: string, limit: nat, s: State, n: Node, next: State)
    requires Sane(buf, s) && s.stack != [] && !Ends(buf, limit, s)
    requires ParseItems(buf, s.pos, |s.stack|, limit, s.budget, SlotOf(s)) == None
    requires ParseNode(buf, s.pos, |s.stack|, limit, s.budget) == Some(n)
    requires Sane(buf, next) && next.pos == s.pos + |Print(n)| && |next.stack| == |s.stack|
    requires next.budget == s.budget - Count(n) && SlotOf(next) == NextSlot(SlotOf(s))
    ensures ParseItems(buf, next.pos, |next.stack|, limit, next.budget, SlotOf(next)) == None
    ensures ItemsFault(buf, s.pos, |s.stack|, limit, s.budget, SlotOf(s))
      == ItemsFault(buf, next.pos, |next.stack|, limit, next.budget, SlotOf(next))
  {
    RestFails(buf, s.pos, |s.stack|, limit, s.budget, SlotOf(s), n);
  }

  lemma RestFails(buf: string, pos: nat, depth: nat, limit: nat, budget: int, slot: Slot, n: Node)
    requires pos < |buf| && depth < limit && budget > 0
    requires buf[pos] != 'e' && (slot == Key ==> Numeric(buf[pos]))
    requires ParseNode(buf, pos, depth, limit, budget) == Some(n)
    requires ParseItems(buf, pos, depth, limit, budget, slot) == None
    ensures ParseItems(buf, pos + |Print(n)|, depth, limit, budget - Count(n), NextSlot(slot)) == None
    ensures ItemsFault(buf, pos, depth, limit, budget, slot)
      == ItemsFault(buf, pos + |Print(n)|, depth, limit, budget - Count(n), NextSlot(slot))
  {
  }

  lemma HeadRuns(buf: string, limit: nat, s: State, n: Node)
    requires Sane(buf, s) && |buf| <= MAX_OFFSET && s.stack != [] && s.pos < |buf|
    requires SlotOf(s) == Key ==> Numeric(buf[s.pos])
    requires ParseNode(buf, s.pos, |s.stack|, limit, s.budget) == Some(n)
    ensures var s' := AfterNode(s, n);
      && Sane(buf, s') && |s'.stack| == |s.stack| && SlotOf(s') == NextSlot(SlotOf(s))
      && Run(buf, limit, s) == Run(buf, limit, s')
  {
    NodeSound(buf, s.pos, |s.stack|, limit, s.budget);
    KeysAreStrings(buf, s.pos, |s.stack|, limit, s.budget);
    RunNode(buf, limit, s, n);
    FlipSlot(s, AfterNode(s, n));
  }

  // ----- the main results -----

  /** A well-formed tree within the limits of a call. */
  ghost predicate Fits(n: Node, depthLimit: nat, tokenLimit: int) {
    Ok(n) && Height(n) < depthLimit && Count(n) <= tokenLimit
  }

  /** The token array of a tree: its preorder listing, ended by a token that marks where
      the tree ends in the buffer. */
  function Listing(n: Node): seq<Token> {
    Tokens(n, 0) + [Token(|Print(n)|, 0, EndToken, 0)]
  }

  /** A buffer that starts with a tree decodes to the listing of that tree; what follows
      the tree does not matter. */
  lemma DecodesTree(buf: string, n: Node, depthLimit: nat, tokenLimit: int)
    requires |buf| <= MAX_OFFSET && Fits(n, depthLimit, tokenLimit) && At(buf, 0, Print(n))
    ensures Decode(buf, depthLimit, tokenLimit) == Decoded(Listing(n), |Print(n)|, None)
  {
    var s := State(0, [], [], tokenLimit);
    RunNode(buf, depthLimit, s, n);
    assert AfterNode(s, n).tokens == Tokens(n, 0);
  }

  /** Where the reference parser finds no tree, bdecode() fails with the same error at the same
      place. */
  lemma DecodeFailsWith(buf: string, depthLimit: nat, tokenLimit: int)
    requires |buf| <= MAX_OFFSET && ParseNode(buf, 0, 0, depthLimit, tokenLimit) == None
    ensures var f := NodeFault(buf, 0, 0, depthLimit, tokenLimit);
      Decode(buf, depthLimit, tokenLimit).error == Some((f.error, f.pos))
  {
    hide NodeFault, Run;
    NodeFails(buf, depthLimit, State(0, [], [], tokenLimit));
  }

  /** bdecode() succeeds exactly on the buffers that start with such a tree. */
  lemma DecodeSucceedsIff(buf: string, depthLimit: nat, tokenLimit: int)
    requires |buf| <= MAX_OFFSET
    ensures Decode(buf, depthLimit, tokenLimit).error == None
      <==> exists n :: Fits(n, depthLimit, tokenLimit) && At(buf, 0, Print(n))
  {
    var s := State(0, [], [], tokenLimit);
    match ParseNode(buf, 0, 0, depthLimit, tokenLimit)
    case None =>
      NodeFails(buf, depthLimit, s);
      assert Decode(buf, depthLimit, tokenLimit).error.Some?;
      forall n | Fits(n, depthLimit, tokenLimit) && At(buf, 0, Print(n))
        ensures false
      {
        DecodesTree(buf, n, depthLimit, tokenLimit);
      }
    case Some(n) =>
      NodeSound(buf, 0, 0, depthLimit, tokenLimit);
      assert Fits(n, depthLimit, tokenLimit) && At(buf, 0, Print(n));
      DecodesTree(buf, n, depthLimit, tokenLimit);
  }

  /** The tree a successful parse listed. */
  ghost function TreeOf(buf: string, depthLimit: nat, tokenLimit: int): (n: Node)
    requires |buf| <= MAX_OFFSET && Decode(buf, depthLimit, tokenLimit).error == None
    ensures Fits(n, depthLimit, tokenLimit) && At(buf, 0, Print(n))
    ensures Decode(buf, depthLimit, tokenLimit) == Decoded(Listing(n), |Print(n)|, None)
  {
    DecodeSucceedsIff(buf, depthLimit, tokenLimit);
    var n :| Fits(n, depthLimit, tokenLimit) && At(buf, 0, Print(n));
    DecodesTree(buf, n, depthLimit, tokenLimit);
    n
  }
}
