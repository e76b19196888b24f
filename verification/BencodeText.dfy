/** When encoding a converted text gives the same text again: what has_soft_error() looks
    for, and what it does not. */
module BencodeText {
  import opened Options
  import opened Numbers
  import opened Grammar
  import opened BdecodeReference
  import opened BdecodeTree
  import opened BdecodeLookup
  import opened Bencode

  /** The keys of a dictionary are in strictly increasing order. */
  predicate KeysSorted(items: Nodes)
    requires AllOk(items, Key)
    decreases items
  {
    if items.Nil? then true
    else
      PairParts(items);
      var rest := items.tail.tail;
      if rest.Nil? then true
      else
        PairParts(rest);
        Less(items.head.body, rest.head.body) && KeysSorted(rest)
  }

  /** The things has_soft_error() reports: a leading zero of an integer or of a length
      prefix, an unsorted or a duplicate key. A minus sign hides the zero behind it. */
  predicate SoftError(n: Node)
    requires Ok(n)
  {
    match n
    case Integer(text) => text[0] == '0' && |text| > 1
    case Str(prefix, _) => prefix[0] == '0' && |prefix| > 1
    case List(items) => AnySoftError(items, Item)
    case Dict(items) => AnySoftError(items, Key) || !KeysSorted(items)
  }

  predicate AnySoftError(items: Nodes, slot: Slot)
    requires AllOk(items, slot)
  {
    match items
    case Nil => false
    case Cons(n, rest) => SoftError(n) || AnySoftError(rest, NextSlot(slot))
  }

  /** An integer write_integer() can reproduce: it fits 63 bits, a negative one 18 digits,
      and there is no zero behind a minus sign. */
  predicate Reproducible(text: string)
    requires IntegerOk(text)
  {
    if text[0] == '-' then text[1] != '0' && Numbers.Value(Magnitude(text)) < TEN18
    else Numbers.Value(text) <= INT64_MAX
  }

  predicate IntegersReproducible(n: Node)
    requires Ok(n)
  {
    match n
    case Integer(text) => Reproducible(text)
    case Str(_, _) => true
    case List(items) => AllReproducible(items, Item)
    case Dict(items) => AllReproducible(items, Key)
  }

  predicate AllReproducible(items: Nodes, slot: Slot)
    requires AllOk(items, slot)
  {
    match items
    case Nil => true
    case Cons(n, rest) => IntegersReproducible(n) && AllReproducible(rest, NextSlot(slot))
  }

  predicate Clean(n: Node)
    requires Ok(n)
  {
    !SoftError(n) && IntegersReproducible(n)
  }

  // ----- leaves -----

  /** What int_value() makes of a text is a valid integer. */
  lemma ValueInRange(text: string)
    requires IntegerOk(text)
    ensures INT64_MIN < IntegerValue(text) <= INT64_MAX
  {
  }

  lemma CleanIntegerReprints(text: string)
    requires IntegerOk(text) && Clean(Integer(text))
    ensures WriteInteger(IntegerValue(text)) == text
  {
    var m := Magnitude(text);
    if text[0] == '-' {
      assert m[0] == text[1];
      DigitsOfValue(m);
      ValueIsPositive(m);
      Power18();
      DigitsLength(Numbers.Value(m), 18);
      LastDigitsAreDigits(Numbers.Value(m), 18);
      assert text == "-" + m;
    } else {
      assert m == text;
      DigitsOfValue(m);
      WriteDigitsOf(Numbers.Value(m));
    }
  }

  lemma WriteDigitsOf(v: nat)
    requires v <= INT64_MAX
    ensures WriteInteger(v) == Digits(v)
  {
    if v > 0 {
      WritePositive(v);
    }
  }

  lemma ReprintedIntegerIsClean(text: string)
    requires IntegerOk(text) && WriteInteger(IntegerValue(text)) == text
    ensures Clean(Integer(text))
  {
    var v := IntegerValue(text);
    ValueInRange(text);
    if v < 0 {
      NegativeIsClean(v, text);
    } else {
      WriteDigitsOf(v);
      ValueOfDigits(v);
      assert Numeric(text[0]);
      assert Magnitude(text) == text;
    }
  }

  lemma NegativeIsClean(v: int, text: string)
    requires INT64_MIN < v < 0 && IntegerOk(text) && IntegerValue(text) == v && WriteInteger(v) == text
    ensures Clean(Integer(text))
  {
    var m := Magnitude(text);
    WriteNegative(v);
    assert text[0] == '-' && m == LastDigits(-v, 18) && Numbers.Value(m) == -v;
    LastDigitsAreDigits(-v, 18);
    ValueBound(m);
    PowerGrows(|m|, 18);
    LastDigitsLead(-v, 18);
    assert m[0] == text[1];
    Power18();
  }

  lemma {:induction false} PowerGrows(a: nat, b: nat)
    requires a <= b
    ensures Power10(a) <= Power10(b)
    decreases b
  {
    if a < b {
      PowerGrows(a, b - 1);
    }
  }

  /** Digits that are not cut off do not start with a zero. */
  lemma LastDigitsLead(n: nat, k: nat)
    requires 0 < n < Power10(k) && k > 0
    ensures LastDigits(n, k) == Digits(n) && LastDigits(n, k) != "" && LastDigits(n, k)[0] != '0'
  {
    DigitsLength(n, k);
    LastDigitsAreDigits(n, k);
    ValueOfDigits(n);
  }

  lemma StrReprints(prefix: string, body: string)
    requires StrOk(prefix, body)
    ensures |body| <= INT64_MAX && Short(body)
    ensures StrOf(body) == Str(prefix, body) <==> !SoftError(Str(prefix, body))
  {
    ValueBound(prefix);
    PowerGrows(|prefix|, 8);
    Power8();
    WriteDigitsOf(|body|);
    ValueOfDigits(|body|);
    if NoLeadingZero(prefix) {
      DigitsOfValue(prefix);
    }
  }

  // ----- trees -----

  lemma {:induction false} EntryIsValid(n: Node)
    requires Ok(n)
    ensures Valid(ToEntry(n)) && TextsShort(ToEntry(n))
    decreases n, 0
  {
    match n
    case Integer(text) => ValueInRange(text);
    case Str(prefix, body) => StrReprints(prefix, body);
    case List(items) => EntriesAreValid(items);
    case Dict(items) =>
      InsertAllKeepsSorted(NoPairs, items);
      PairsAreValid(NoPairs, items);
  }

  lemma {:induction false} EntriesAreValid(items: Nodes)
    requires AllOk(items, Item)
    ensures AllValid(ToEntries(items)) && AllTextsShort(ToEntries(items))
    decreases items, 0
  {
    match items
    case Nil =>
    case Cons(n, rest) =>
      EntryIsValid(n);
      EntriesAreValid(rest);
  }

  lemma {:induction false} PairsAreValid(d: Pairs, items: Nodes)
    requires AllOk(items, Key) && ValuesValid(d) && PairTextsShort(d)
    ensures ValuesValid(InsertAll(d, items)) && PairTextsShort(InsertAll(d, items))
    decreases items, 0
  {
    if items.Cons? {
      PairParts(items);
      var key, value := items.head, items.tail.head;
      StrReprints(key.prefix, key.body);
      EntryIsValid(value);
      InsertIsValid(d, key.body, ToEntry(value));
      PairsAreValid(Insert(d, key.body, ToEntry(value)), items.tail.tail);
    }
  }

  lemma {:induction false} InsertIsValid(d: Pairs, key: string, value: Entry)
    requires ValuesValid(d) && PairTextsShort(d) && Valid(value) && TextsShort(value) && Short(key)
    ensures ValuesValid(Insert(d, key, value)) && PairTextsShort(Insert(d, key, value))
  {
    if d.Pairs? {
      InsertIsValid(d.rest, key, value);
    }
  }

  /** The pairs of a dictionary in the order of the text. */
  function PairsOf(items: Nodes): Pairs
    requires AllOk(items, Key)
    decreases items
  {
    if items.Nil? then NoPairs
    else
      PairParts(items);
      Pairs(items.head.body, ToEntry(items.tail.head), PairsOf(items.tail.tail))
  }

  lemma {:induction false} SortedInsertAll(d: Pairs, items: Nodes)
    requires AllOk(items, Key) && KeysSorted(items)
    requires items.Cons? ==> Below(d, items.head.body)
    ensures InsertAll(d, items) == Append(d, PairsOf(items))
    decreases items
  {
    if items.Nil? {
      AppendNothing(d);
    } else {
      PairParts(items);
      var key, value, rest := items.head.body, ToEntry(items.tail.head), items.tail.tail;
      InsertLast(d, key, value);
      if rest.Cons? {
        BelowAppended(d, key, value, rest.head.body);
      }
      SortedInsertAll(Insert(d, key, value), rest);
      AppendIsAssociative(d, key, value, PairsOf(rest));
    }
  }

  /** The keys a sorted map is written with are sorted. */
  lemma {:induction false} WrittenKeysAreSorted(d: Pairs, items: Nodes)
    requires AllOk(items, Key) && Sorted(d) && ItemsOf(d) == items
    ensures KeysSorted(items)
    decreases d
  {
    if d.Pairs? {
      PairParts(items);
      WrittenKeysAreSorted(d.rest, items.tail.tail);
    }
  }

  /** A tree comes back from its entry exactly if it is clean. */
  lemma {:induction false} ComesBackIffClean(n: Node)
    requires Ok(n)
    ensures NodeOf(ToEntry(n)) == n <==> Clean(n)
    decreases n, 0
  {
    match n
    case Integer(text) =>
      if Clean(n) {
        CleanIntegerReprints(text);
      }
      if WriteInteger(IntegerValue(text)) == text {
        ReprintedIntegerIsClean(text);
      }
    case Str(prefix, body) => StrReprints(prefix, body);
    case List(items) => ItemsComeBack(items);
    case Dict(items) => DictComesBack(items);
  }

  lemma {:induction false} ItemsComeBack(items: Nodes)
    requires AllOk(items, Item)
    ensures NodesOf(ToEntries(items)) == items <==> !AnySoftError(items, Item) && AllReproducible(items, Item)
    decreases items, 0
  {
    match items
    case Nil =>
    case Cons(n, rest) =>
      ComesBackIffClean(n);
      ItemsComeBack(rest);
  }

  lemma {:induction false} PairsComeBack(items: Nodes)
    requires AllOk(items, Key)
    ensures ItemsOf(PairsOf(items)) == items <==> !AnySoftError(items, Key) && AllReproducible(items, Key)
    decreases items, 0
  {
    if items.Cons? {
      PairParts(items);
      var key, value, rest := items.head, items.tail.head, items.tail.tail;
      StrReprints(key.prefix, key.body);
      ComesBackIffClean(value);
      PairsComeBack(rest);
      PairErrors(items);
    }
  }

  lemma PairErrors(items: Nodes)
    requires AllOk(items, Key) && items.Cons?
    ensures items.head.Str? && items.tail.Cons? && Ok(items.tail.head) && AllOk(items.tail.tail, Key)
    ensures AnySoftError(items, Key)
      <==> SoftError(items.head) || SoftError(items.tail.head) || AnySoftError(items.tail.tail, Key)
    ensures AllReproducible(items, Key)
      <==> IntegersReproducible(items.tail.head) && AllReproducible(items.tail.tail, Key)
  {
    PairParts(items);
    assert AnySoftError(items.tail, Slot.Value) <==> SoftError(items.tail.head) || AnySoftError(items.tail.tail, Key);
    assert AllReproducible(items.tail, Slot.Value)
      <==> IntegersReproducible(items.tail.head) && AllReproducible(items.tail.tail, Key);
  }

  lemma {:induction false} DictComesBack(items: Nodes)
    requires AllOk(items, Key)
    ensures NodeOf(ToEntry(Dict(items))) == Dict(items) <==> Clean(Dict(items))
    decreases items, 1
  {
    PairsComeBack(items);
    if KeysSorted(items) {
      SortedInsertAll(NoPairs, items);
    }
    if ItemsOf(InsertAll(NoPairs, items)) == items {
      InsertAllKeepsSorted(NoPairs, items);
      WrittenKeysAreSorted(InsertAll(NoPairs, items), items);
    }
  }

  /** Encoding the entry a well-formed text was converted to gives that text again exactly
      if has_soft_error() finds nothing and every integer is one write_integer() can
      reproduce. */
  lemma ReencodesIffClean(n: Node)
    requires Ok(n)
    ensures Encode(ToEntry(n)) == Print(n) <==> !SoftError(n) && IntegersReproducible(n)
  {
    var e := ToEntry(n);
    EncodePrints(e);
    ComesBackIffClean(n);
    if Print(NodeOf(e)) == Print(n) {
      EntryIsValid(n);
      NodeOfOk(e);
      GrammarIsUnambiguous(Print(n), 0, NodeOf(e), n);
    }
  }

  /** The same for the bytes bdecode() consumed. */
  lemma ConsumedBytesReencode(buf: string, depthLimit: nat, tokenLimit: int)
    requires |buf| <= Grammar.MAX_OFFSET && Bdecode.Decode(buf, depthLimit, tokenLimit).error == None
    ensures var n := TreeOf(buf, depthLimit, tokenLimit);
      var size := Bdecode.Decode(buf, depthLimit, tokenLimit).size;
      size <= |buf| && (Encode(ToEntry(n)) == buf[..size] <==> !SoftError(n) && IntegersReproducible(n))
  {
    ReencodesIffClean(TreeOf(buf, depthLimit, tokenLimit));
  }

  /** Texts without a soft error that are not reproduced: a zero behind a minus sign, a
      number of 19 digits that does not fit 63 bits, and a negative one that does, but whose
      19 digits do not fit the buffer of the encoder. */
  lemma SoftErrorsMissThreeCases()
    ensures var n := Integer("-01"); Ok(n) && !SoftError(n) && Encode(ToEntry(n)) != Print(n)
    ensures var n := Integer("9999999999999999999"); Ok(n) && !SoftError(n) && Encode(ToEntry(n)) != Print(n)
    ensures var n := Integer("-1000000000000000000"); Ok(n) && !SoftError(n) && Encode(ToEntry(n)) != Print(n)
  {
    hide Encode, ToEntry, Print, IntegerOk, Reproducible;
    HiddenZero();
    NotReproduced("-01");
    LongNine();
    NotReproduced("9999999999999999999");
    LongNegative();
    NotReproduced("-1000000000000000000");
  }

  lemma NotReproduced(text: string)
    requires IntegerOk(text) && !Reproducible(text)
    ensures Ok(Integer(text)) && Encode(ToEntry(Integer(text))) != Print(Integer(text))
  {
    hide Encode, ToEntry, Print, IntegerOk, Reproducible;
    ReencodesIffClean(Integer(text));
  }

  lemma HiddenZero()
    ensures IntegerOk("-01") && !Reproducible("-01") && !SoftError(Integer("-01"))
  {
    assert "-01"[1..] == "01";
  }

  lemma LongNegative()
    ensures var s := "-1000000000000000000"; IntegerOk(s) && !Reproducible(s) && !SoftError(Integer(s))
  {
    LongOne();
    assert "-1000000000000000000"[1..] == "1000000000000000000";
  }

  lemma LongOne()
    ensures AllNumeric("1000000000000000000") && Numbers.Value("1000000000000000000") == TEN18
  {
    Power18();
    OneAndZeros("1000000000000000000");
  }

  lemma {:induction false} OneAndZeros(s: string)
    requires |s| > 0 && s[0] == '1' && forall i :: 0 < i < |s| ==> s[i] == '0'
    ensures AllNumeric(s) && Numbers.Value(s) == Power10(|s| - 1)
  {
    if |s| > 1 {
      OneAndZeros(s[..|s| - 1]);
    } else {
      assert s[..0] == "";
    }
  }

  lemma LongNine()
    ensures var s := "9999999999999999999"; IntegerOk(s) && !Reproducible(s) && !SoftError(Integer(s))
  {
    var s := "9999999999999999999";
    Power18();
    DigitsOfValue(s);
    Nines(s);
  }

  lemma {:induction false} Nines(s: string)
    requires AllNumeric(s) && forall i :: 0 <= i < |s| ==> s[i] == '9'
    ensures Numbers.Value(s) == Power10(|s|) - 1
  {
    if s != "" {
      Nines(s[..|s| - 1]);
    }
  }
}
