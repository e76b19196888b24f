/** The entry tree of entry.cpp, its encoding by bencode.hpp, the conversion of a parsed
    tree to an entry, and how far encoding and decoding undo each other. */
module Bencode {
  import opened Options
  import opened Numbers
  import opened Grammar
  import opened Bdecode
  import opened BdecodeReference
  import opened BdecodeTree
  import opened BdecodeLookup

  datatype Entry =
    | Undefined
    | Int(value: int)
    | Text(bytes: string)
    | ListOf(entries: Entries)
    | DictOf(pairs: Pairs)

  datatype Entries = NoEntries | Entries(first: Entry, rest: Entries)

  /** A dictionary is a std::map: its pairs are kept in the order of their keys. */
  datatype Pairs = NoPairs | Pairs(key: string, value: Entry, rest: Pairs)

  predicate Less(a: string, b: string) {
    if b == "" then false
    else if a == "" then true
    else a[0] < b[0] || (a[0] == b[0] && Less(a[1..], b[1..]))
  }

  predicate Sorted(d: Pairs) {
    d.NoPairs? || ((d.rest.NoPairs? || Less(d.key, d.rest.key)) && Sorted(d.rest))
  }

  /** What every entry is: a 64 bit integer whose negation fits, and sorted maps. */
  predicate Valid(e: Entry) {
    match e
    case Undefined => true
    case Int(v) => INT64_MIN < v <= INT64_MAX
    case Text(_) => true
    case ListOf(entries) => AllValid(entries)
    case DictOf(pairs) => Sorted(pairs) && ValuesValid(pairs)
  }

  predicate AllValid(es: Entries) {
    match es
    case NoEntries => true
    case Entries(e, rest) => Valid(e) && AllValid(rest)
  }

  predicate ValuesValid(d: Pairs) {
    match d
    case NoPairs => true
    case Pairs(_, e, rest) => Valid(e) && ValuesValid(rest)
  }

  // ----- the encoder -----

  /** The text write_integer() puts out: its buffer holds 21 characters. */
  function WriteInteger(v: int): string {
    IntegerText(21, v)
  }

  function WriteText(s: string): string {
    WriteInteger(|s|) + (":" + s)
  }

  function Encode(e: Entry): string {
    match e
    case Undefined => "0:"
    case Int(v) => "i" + (WriteInteger(v) + "e")
    case Text(s) => WriteText(s)
    case ListOf(entries) => "l" + (EncodeAll(entries) + "e")
    case DictOf(pairs) => "d" + (EncodePairs(pairs) + "e")
  }

  function EncodeAll(es: Entries): string {
    match es
    case NoEntries => ""
    case Entries(e, rest) => Encode(e) + EncodeAll(rest)
  }

  function EncodePairs(d: Pairs): string {
    match d
    case NoPairs => ""
    case Pairs(key, e, rest) => WriteText(key) + (Encode(e) + EncodePairs(rest))
  }

  // ----- the conversion of a parsed tree -----

  /** d[key] = value. */
  function Insert(d: Pairs, key: string, value: Entry): Pairs {
    match d
    case NoPairs => Pairs(key, value, NoPairs)
    case Pairs(k, e, rest) =>
      if Less(key, k) then Pairs(key, value, d)
      else if key == k then Pairs(k, value, rest)
      else Pairs(k, e, Insert(rest, key, value))
  }

  function ToEntry(n: Node): Entry
    requires Ok(n)
  {
    match n
    case Integer(text) => Int(IntegerValue(text))
    case Str(_, body) => Text(body)
    case List(items) => ListOf(ToEntries(items))
    case Dict(items) => DictOf(InsertAll(NoPairs, items))
  }

  function ToEntries(items: Nodes): Entries
    requires AllOk(items, Item)
  {
    match items
    case Nil => NoEntries
    case Cons(n, rest) => Entries(ToEntry(n), ToEntries(rest))
  }

  lemma PairParts(items: Nodes)
    requires AllOk(items, Key) && items.Cons?
    ensures items.head.Str? && items.tail.Cons? && Ok(items.tail.head) && AllOk(items.tail.tail, Key)
  {
    assert AllOk(items.tail, Slot.Value);
  }

  /** The pairs of a dictionary are inserted in the order of the text. */
  function InsertAll(d: Pairs, items: Nodes): Pairs
    requires AllOk(items, Key)
    decreases items
  {
    if items.Nil? then d
    else
      PairParts(items);
      InsertAll(Insert(d, items.head.body, ToEntry(items.tail.head)), items.tail.tail)
  }

  // ----- the tree an entry is encoded as -----

  function NodeOf(e: Entry): Node {
    match e
    case Undefined => Str("0", "")
    case Int(v) => Integer(WriteInteger(v))
    case Text(s) => StrOf(s)
    case ListOf(entries) => List(NodesOf(entries))
    case DictOf(pairs) => Dict(ItemsOf(pairs))
  }

  function StrOf(s: string): Node {
    Str(WriteInteger(|s|), s)
  }

  function NodesOf(es: Entries): Nodes {
    match es
    case NoEntries => Nil
    case Entries(e, rest) => Cons(NodeOf(e), NodesOf(rest))
  }

  function ItemsOf(d: Pairs): Nodes {
    match d
    case NoPairs => Nil
    case Pairs(key, e, rest) => Cons(StrOf(key), Cons(NodeOf(e), ItemsOf(rest)))
  }

  lemma {:induction false} EncodePrints(e: Entry)
    ensures Encode(e) == Print(NodeOf(e))
  {
    match e
    case Undefined => assert Print(Str("0", "")) == "0" + (":" + "");
    case Int(_) =>
    case Text(_) =>
    case ListOf(entries) => EncodeAllPrints(entries);
    case DictOf(pairs) => EncodePairsPrints(pairs);
  }

  lemma {:induction false} EncodeAllPrints(es: Entries)
    ensures EncodeAll(es) == PrintAll(NodesOf(es))
  {
    match es
    case NoEntries =>
    case Entries(e, rest) =>
      EncodePrints(e);
      EncodeAllPrints(rest);
  }

  lemma {:induction false} EncodePairsPrints(d: Pairs)
    ensures EncodePairs(d) == PrintAll(ItemsOf(d))
  {
    match d
    case NoPairs =>
    case Pairs(key, e, rest) =>
      EncodePrints(e);
      EncodePairsPrints(rest);
      assert PrintAll(ItemsOf(d)) == Print(StrOf(key)) + (Print(NodeOf(e)) + PrintAll(ItemsOf(rest)));
  }

  // ----- integers -----

  const TEN18: int := 1_000_000_000_000_000_000

  lemma Power18()
    ensures Power10(18) == TEN18 && Power10(19) == 10 * TEN18
  {
    assert Power10(3) == 1000 by { assert Power10(1) == 10; assert Power10(2) == 100; }
    assert Power10(6) == 1_000_000 by { assert Power10(4) == 10_000; assert Power10(5) == 100_000; }
    PowerThree(6); PowerThree(9); PowerThree(12); PowerThree(15);
  }

  lemma PowerThree(k: nat)
    ensures Power10(k + 3) == 1000 * Power10(k)
  {
    assert Power10(k + 1) == 10 * Power10(k);
    assert Power10(k + 2) == 100 * Power10(k);
  }

  /** The last k digits of n as a number. */
  function Low(n: nat, k: nat): (r: nat)
    ensures n == 0 || k == 0 ==> r == 0
  {
    if n == 0 || k == 0 then 0 else n % Power10(k)
  }

  lemma LowStep(n: nat, k: nat)
    requires n > 0 && k > 0
    ensures Low(n, k) == Low(n / 10, k - 1) * 10 + n % 10
  {
    var p := Power10(k - 1);
    DivMod(n, p);
    assert Low(n, k) == n % (10 * p);
    if k == 1 {
      assert p == 1;
    } else if n / 10 == 0 {
      Remainder(p, 0, 0, (n / 10) / p, (n / 10) % p);
    }
  }

  lemma {:induction false} LastDigitsValue(n: nat, k: nat)
    ensures AllNumeric(LastDigits(n, k)) && Numbers.Value(LastDigits(n, k)) == Low(n, k)
    ensures |LastDigits(n, k)| <= k && (n > 0 && k > 0 ==> |LastDigits(n, k)| > 0)
    decreases k
  {
    if k > 0 && n > 0 {
      LastDigitsValue(n / 10, k - 1);
      ValueConcat(LastDigits(n / 10, k - 1), CharOf(n % 10));
      LowStep(n, k);
    }
  }

  lemma DivMod(n: nat, p: nat)
    requires p > 0
    ensures n % (10 * p) == (n / 10) % p * 10 + n % 10
  {
    var q, r := n / 10, n % 10;
    var a, b := q / p, q % p;
    assert n == 10 * (p * a + b) + r;
    assert 10 * (p * a) == (10 * p) * a;
    Remainder(10 * p, a, 10 * b + r, n / (10 * p), n % (10 * p));
  }

  lemma Remainder(d: int, q: int, r: int, q': int, r': int)
    requires d > 0 && d * q + r == d * q' + r' && 0 <= r < d && 0 <= r' < d
    ensures r == r'
  {
    var k := q - q';
    assert d * k == d * q - d * q';
    if k >= 1 {
      AtLeast(d, k);
    } else if k <= -1 {
      AtLeast(d, -k);
    }
  }

  lemma AtLeast(d: int, k: int)
    requires d > 0 && k >= 1
    ensures d * k >= d
  {
  }

  /** write_integer() keeps the value exactly for numbers above -10^18; of a smaller one
      the last 18 digits are left. */
  function Kept(v: int): int {
    if v > -TEN18 then v else -(-v % TEN18)
  }

  lemma KeptSame(v: int)
    ensures Kept(v) == v <==> v > -TEN18
  {
  }

  lemma WriteKeeps(v: int)
    requires INT64_MIN < v <= INT64_MAX
    ensures IntegerOk(WriteInteger(v)) && IntegerValue(WriteInteger(v)) == Kept(v)
  {
    Power18();
    if v > 0 {
      WritePositive(v);
    } else if v < 0 {
      WriteNegative(v);
    } else {
      assert WriteInteger(0) == "0";
      assert "0"[..0] == "";
    }
  }

  lemma WritePositive(v: nat)
    requires 0 < v <= INT64_MAX
    ensures WriteInteger(v) == Digits(v) && |Digits(v)| <= 19 && Digits(v)[0] != '-'
    ensures IntegerOk(Digits(v)) && IntegerValue(Digits(v)) == v
  {
    Power18();
    DigitsLength(v, 19);
    LastDigitsAreDigits(v, 19);
    assert WriteInteger(v) == "" + LastDigits(v, 19);
    DigitsAreInteger(v);
  }

  lemma DigitsAreInteger(v: nat)
    requires |Digits(v)| <= 19 && v <= INT64_MAX
    ensures Digits(v)[0] != '-' && IntegerOk(Digits(v)) && IntegerValue(Digits(v)) == v
  {
    ValueOfDigits(v);
    assert Numeric(Digits(v)[0]);
    assert Magnitude(Digits(v)) == Digits(v);
  }

  lemma WriteNegative(v: int)
    requires INT64_MIN < v < 0
    ensures IntegerOk(WriteInteger(v)) && IntegerValue(WriteInteger(v)) == Kept(v)
    ensures WriteInteger(v) == "-" + LastDigits(-v, 18) && Magnitude(WriteInteger(v)) == LastDigits(-v, 18)
  {
    hide LastDigits, Digits, Numbers.Value, Power10;
    LastDigitsValue(-v, 18);
    var m := LastDigits(-v, 18);
    assert WriteInteger(v) == "-" + m;
    assert ("-" + m)[1..] == m;
    LowOf18(-v);
  }

  lemma LowOf18(n: int)
    requires 0 < n <= INT64_MAX
    ensures Low(n, 18) == -Kept(-n) && Low(n, 18) <= INT64_MAX
  {
    Power18();
    assert Low(n, 18) == n % TEN18;
  }

  // ----- encoding, then decoding -----

  /** The decoder accepts length prefixes of at most eight digits. */
  predicate Short(s: string) {
    |s| < 100_000_000
  }

  predicate TextsShort(e: Entry) {
    match e
    case Undefined => true
    case Int(_) => true
    case Text(s) => Short(s)
    case ListOf(entries) => AllTextsShort(entries)
    case DictOf(pairs) => PairTextsShort(pairs)
  }

  predicate AllTextsShort(es: Entries) {
    match es
    case NoEntries => true
    case Entries(e, rest) => TextsShort(e) && AllTextsShort(rest)
  }

  predicate PairTextsShort(d: Pairs) {
    match d
    case NoPairs => true
    case Pairs(key, e, rest) => Short(key) && TextsShort(e) && PairTextsShort(rest)
  }

  lemma StrOfOk(s: string)
    requires |s| <= INT64_MAX
    ensures Ok(StrOf(s)) <==> Short(s)
    ensures NoLeadingZero(WriteInteger(|s|))
  {
    if |s| > 0 {
      WritePositive(|s|);
      ValueOfDigits(|s|);
      DigitsLength(|s|, 8);
      Power8();
    } else {
      assert WriteInteger(0) == "0";
      assert "0"[..0] == "";
    }
  }

  lemma Power8()
    ensures Power10(8) == 100_000_000
  {
    assert Power10(1) == 10;
    assert Power10(2) == 100;
    PowerThree(2);
    PowerThree(5);
  }

  lemma {:induction false} NodeOfOk(e: Entry)
    requires Valid(e) && TextsShort(e)
    ensures Ok(NodeOf(e))
  {
    match e
    case Undefined => assert "0"[..0] == "";
    case Int(v) => WriteKeeps(v);
    case Text(s) => StrOfOk(s);
    case ListOf(entries) => NodesOfOk(entries);
    case DictOf(pairs) => ItemsOfOk(pairs);
  }

  lemma {:induction false} NodesOfOk(es: Entries)
    requires AllValid(es) && AllTextsShort(es)
    ensures AllOk(NodesOf(es), Item)
  {
    match es
    case NoEntries =>
    case Entries(e, rest) =>
      NodeOfOk(e);
      NodesOfOk(rest);
  }

  lemma {:induction false} ItemsOfOk(d: Pairs)
    requires ValuesValid(d) && PairTextsShort(d)
    ensures AllOk(ItemsOf(d), Key)
  {
    match d
    case NoPairs =>
    case Pairs(key, e, rest) =>
      StrOfOk(key);
      NodeOfOk(e);
      ItemsOfOk(rest);
      PairOk(StrOf(key), NodeOf(e), ItemsOf(rest));
  }

  lemma PairOk(key: Node, value: Node, rest: Nodes)
    ensures AllOk(Cons(key, Cons(value, rest)), Key) <==> key.Str? && Ok(key) && Ok(value) && AllOk(rest, Key)
  {
    assert AllOk(Cons(value, rest), Slot.Value) <==> Ok(value) && AllOk(rest, Key);
  }

  /** What an entry is after it was encoded and decoded. */
  function Round(e: Entry): Entry {
    match e
    case Undefined => Text("")
    case Int(v) => Int(Kept(v))
    case Text(s) => e
    case ListOf(entries) => ListOf(RoundAll(entries))
    case DictOf(pairs) => DictOf(RoundPairs(pairs))
  }

  function RoundAll(es: Entries): Entries {
    match es
    case NoEntries => NoEntries
    case Entries(e, rest) => Entries(Round(e), RoundAll(rest))
  }

  function RoundPairs(d: Pairs): Pairs {
    match d
    case NoPairs => NoPairs
    case Pairs(key, e, rest) => Pairs(key, Round(e), RoundPairs(rest))
  }

  /** The entries that survive: no undefined entry, and no integer of -10^18 or below. */
  predicate Exact(e: Entry) {
    match e
    case Undefined => false
    case Int(v) => v > -TEN18
    case Text(_) => true
    case ListOf(entries) => AllExact(entries)
    case DictOf(pairs) => PairsExact(pairs)
  }

  predicate AllExact(es: Entries) {
    match es
    case NoEntries => true
    case Entries(e, rest) => Exact(e) && AllExact(rest)
  }

  predicate PairsExact(d: Pairs) {
    match d
    case NoPairs => true
    case Pairs(_, e, rest) => Exact(e) && PairsExact(rest)
  }

  lemma {:induction false} RoundIsExact(e: Entry)
    ensures Round(e) == e <==> Exact(e)
  {
    match e
    case Undefined =>
    case Int(v) => KeptSame(v);
    case Text(_) =>
    case ListOf(entries) => RoundAllIsExact(entries);
    case DictOf(pairs) => RoundPairsIsExact(pairs);
  }

  lemma {:induction false} RoundAllIsExact(es: Entries)
    ensures RoundAll(es) == es <==> AllExact(es)
  {
    match es
    case NoEntries =>
    case Entries(e, rest) =>
      RoundIsExact(e);
      RoundAllIsExact(rest);
  }

  lemma {:induction false} RoundPairsIsExact(d: Pairs)
    ensures RoundPairs(d) == d <==> PairsExact(d)
  {
    match d
    case NoPairs =>
    case Pairs(_, e, rest) =>
      RoundIsExact(e);
      RoundPairsIsExact(rest);
  }

  // ----- the order of keys -----

  lemma {:induction false} LessIsTotal(a: string, b: string)
    ensures Less(a, b) ==> a != b && !Less(b, a)
    ensures Less(a, b) || a == b || Less(b, a)
    decreases |a|
  {
    if a != "" && b != "" {
      LessIsTotal(a[1..], b[1..]);
      assert a == [a[0]] + a[1..] && b == [b[0]] + b[1..];
    }
  }

  lemma {:induction false} LessIsTransitive(a: string, b: string, c: string)
    requires Less(a, b) && Less(b, c)
    ensures Less(a, c)
    decreases |a|
  {
    if a != "" && a[0] == b[0] == c[0] {
      LessIsTransitive(a[1..], b[1..], c[1..]);
    }
  }

  /** Every key of d is below key. */
  predicate Below(d: Pairs, key: string) {
    d.NoPairs? || (Less(d.key, key) && Below(d.rest, key))
  }

  function Append(d: Pairs, more: Pairs): Pairs {
    match d
    case NoPairs => more
    case Pairs(k, e, rest) => Pairs(k, e, Append(rest, more))
  }

  lemma {:induction false} InsertLast(d: Pairs, key: string, value: Entry)
    requires Below(d, key)
    ensures Insert(d, key, value) == Append(d, Pairs(key, value, NoPairs))
  {
    match d
    case NoPairs =>
    case Pairs(k, _, rest) =>
      LessIsTotal(k, key);
      InsertLast(rest, key, value);
  }

  lemma {:induction false} BelowAppended(d: Pairs, key: string, value: Entry, next: string)
    requires Below(d, key) && Less(key, next)
    ensures Below(Append(d, Pairs(key, value, NoPairs)), next)
  {
    match d
    case NoPairs =>
    case Pairs(k, _, rest) =>
      LessIsTransitive(k, key, next);
      BelowAppended(rest, key, value, next);
  }

  lemma {:induction false} AppendIsAssociative(d: Pairs, key: string, value: Entry, more: Pairs)
    ensures Append(Append(d, Pairs(key, value, NoPairs)), more) == Append(d, Pairs(key, value, more))
  {
    if d.Pairs? {
      AppendIsAssociative(d.rest, key, value, more);
    }
  }

  lemma {:induction false} InsertKeepsSorted(d: Pairs, key: string, value: Entry)
    requires Sorted(d)
    ensures var r := Insert(d, key, value);
      Sorted(r) && r.Pairs? && (r.key == key || (d.Pairs? && r.key == d.key))
  {
    if d.Pairs? && !Less(key, d.key) && key != d.key {
      LessIsTotal(key, d.key);
      InsertKeepsSorted(d.rest, key, value);
    }
  }

  /** Converting a text always gives a valid entry. */
  lemma {:induction false} InsertAllKeepsSorted(d: Pairs, items: Nodes)
    requires AllOk(items, Key) && Sorted(d)
    ensures Sorted(InsertAll(d, items))
    decreases items
  {
    if items.Cons? {
      PairParts(items);
      InsertKeepsSorted(d, items.head.body, ToEntry(items.tail.head));
      InsertAllKeepsSorted(Insert(d, items.head.body, ToEntry(items.tail.head)), items.tail.tail);
    }
  }

  // ----- what the map holds: the last value of each key -----

  function Get(d: Pairs, key: string): Option<Entry> {
    match d
    case NoPairs => None
    case Pairs(k, e, rest) => if k == key then Some(e) else Get(rest, key)
  }

  function LastValue(items: Nodes, key: string): Option<Entry>
    requires AllOk(items, Key)
    decreases items
  {
    if items.Nil? then None
    else
      PairParts(items);
      var later := LastValue(items.tail.tail, key);
      if later.Some? then later
      else if items.head.body == key then Some(ToEntry(items.tail.head))
      else None
  }

  lemma {:induction false} GetInserted(d: Pairs, key: string, value: Entry, k: string)
    requires Sorted(d)
    ensures Get(Insert(d, key, value), k) == if k == key then Some(value) else Get(d, k)
  {
    if d.Pairs? {
      GetInserted(d.rest, key, value, k);
    }
  }

  /** Of several values of a key the conversion keeps the last one, while dict_find()
      returns the first one. */
  lemma {:induction false} LastValueWins(d: Pairs, items: Nodes, key: string)
    requires AllOk(items, Key) && Sorted(d)
    ensures Get(InsertAll(d, items), key)
      == if LastValue(items, key).Some? then LastValue(items, key) else Get(d, key)
    decreases items
  {
    if items.Cons? {
      PairParts(items);
      var value := ToEntry(items.tail.head);
      InsertKeepsSorted(d, items.head.body, value);
      GetInserted(d, items.head.body, value, key);
      LastValueWins(Insert(d, items.head.body, value), items.tail.tail, key);
    }
  }

  // ----- the round trip of entries -----

  lemma {:induction false} ConvertsBack(e: Entry)
    requires Valid(e) && TextsShort(e)
    ensures Ok(NodeOf(e)) && ToEntry(NodeOf(e)) == Round(e)
  {
    NodeOfOk(e);
    match e
    case Undefined =>
    case Int(v) => WriteKeeps(v);
    case Text(_) =>
    case ListOf(entries) => EntriesConvertBack(entries);
    case DictOf(pairs) => PairsConvertBack(NoPairs, pairs);
  }

  lemma {:induction false} EntriesConvertBack(es: Entries)
    requires AllValid(es) && AllTextsShort(es)
    ensures AllOk(NodesOf(es), Item) && ToEntries(NodesOf(es)) == RoundAll(es)
  {
    NodesOfOk(es);
    match es
    case NoEntries =>
    case Entries(e, rest) =>
      ConvertsBack(e);
      EntriesConvertBack(rest);
  }

  lemma {:induction false} PairsConvertBack(d: Pairs, more: Pairs)
    requires ValuesValid(more) && PairTextsShort(more) && Sorted(more)
    requires more.Pairs? ==> Below(d, more.key)
    ensures AllOk(ItemsOf(more), Key) && InsertAll(d, ItemsOf(more)) == Append(d, RoundPairs(more))
    decreases more
  {
    ItemsOfOk(more);
    match more
    case NoPairs => AppendNothing(d);
    case Pairs(key, e, rest) =>
      ConvertsBack(e);
      InsertLast(d, key, Round(e));
      if rest.Pairs? {
        BelowAppended(d, key, Round(e), rest.key);
      }
      PairsConvertBack(Insert(d, key, Round(e)), rest);
      AppendIsAssociative(d, key, Round(e), RoundPairs(rest));
  }

  lemma {:induction false} AppendNothing(d: Pairs)
    ensures Append(d, NoPairs) == d
  {
    if d.Pairs? {
      AppendNothing(d.rest);
    }
  }

  /** Decoding the encoding of an entry lists exactly the tree it was encoded as, whatever
      follows it in the buffer; converting that tree gives the entry back, except that
      undefined entries become empty strings and integers of -10^18 and below lose their
      leading digits. */
  lemma EncodedEntryDecodes(buf: string, e: Entry, depthLimit: nat, tokenLimit: int)
    requires |buf| <= MAX_OFFSET && At(buf, 0, Encode(e))
    requires Valid(e) && TextsShort(e)
    requires Height(NodeOf(e)) < depthLimit && Count(NodeOf(e)) <= tokenLimit
    ensures Decode(buf, depthLimit, tokenLimit) == Decoded(Listing(NodeOf(e)), |Encode(e)|, None)
    ensures Ok(NodeOf(e)) && ToEntry(NodeOf(e)) == Round(e)
    ensures ToEntry(NodeOf(e)) == e <==> Exact(e)
  {
    EncodePrints(e);
    ConvertsBack(e);
    RoundIsExact(e);
    DecodesTree(buf, NodeOf(e), depthLimit, tokenLimit);
  }
}
