/** The decimal numbers of bencoding: the scanner and the parser of bdecode.cpp, the
    printer of entry.cpp, and how they undo each other. */
module Numbers {
  import opened Options

  const INT64_MAX: int := 0x7fff_ffff_ffff_ffff
  const INT64_MIN: int := -0x8000_0000_0000_0000

  datatype Error =
    | ExpectedDigit
    | ExpectedColon
    | UnexpectedEof
    | ExpectedValue
    | DepthExceeded
    | LimitExceeded
    | Overflow

  predicate Numeric(c: char) {
    '0' <= c <= '9'
  }

  predicate AllNumeric(s: string) {
    forall i :: 0 <= i < |s| ==> Numeric(s[i])
  }

  function DigitOf(c: char): (d: nat)
    requires Numeric(c)
    ensures d < 10
  {
    c as int - '0' as int
  }

  function CharOf(d: nat): (c: char)
    requires d < 10
    ensures Numeric(c) && DigitOf(c) == d
  {
    ('0' as int + d) as char
  }

  /** The number of digits from pos on. */
  function DigitRun(s: string, pos: nat): (n: nat)
    requires pos <= |s|
    ensures pos + n <= |s|
    ensures forall i :: pos <= i < pos + n ==> Numeric(s[i])
    ensures pos + n < |s| ==> !Numeric(s[pos + n])
    decreases |s| - pos
  {
    if pos == |s| || !Numeric(s[pos]) then 0 else 1 + DigitRun(s, pos + 1)
  }

  lemma {:induction false} DigitRunIs(s: string, pos: nat, n: nat)
    requires pos + n <= |s|
    requires forall i :: pos <= i < pos + n ==> Numeric(s[i])
    requires pos + n < |s| ==> !Numeric(s[pos + n])
    ensures DigitRun(s, pos) == n
    decreases n
  {
    if n > 0 {
      DigitRunIs(s, pos + 1, n - 1);
    }
  }

  /** Where a scan stopped and, if it failed, why. */
  datatype Scan = Scan(pos: nat, error: Option<Error>)

  /** The outcome of check_integer on the text that follows the 'i'. */
  function IntegerScan(s: string, start: nat): (r: Scan)
    requires start <= |s|
    ensures start <= r.pos <= |s|
    ensures r.error == None ==> r.pos < |s| && s[r.pos] == 'e'
  {
    if start == |s| then Scan(start, Some(UnexpectedEof))
    else
      var first := if s[start] == '-' then start + 1 else start;
      if first == |s| then Scan(first, Some(UnexpectedEof))
      else
        var digits := DigitRun(s, first);
        var stop := first + digits;
        Scan(stop,
             if digits > 20 then Some(Overflow)
             else if digits == 0 then Some(ExpectedDigit)
             else if stop == |s| then Some(UnexpectedEof)
             else if s[stop] == 'e' then None
             else Some(ExpectedDigit))
  }

  /** Behind an optional minus, at first, there are n digits and no more. More than twenty are
      too many; otherwise the buffer ends behind them, or an 'e' follows, and there was a
      digit, or else a digit was expected where they stop. */
  lemma ScanIs(s: string, start: nat, first: nat, n: nat)
    requires first + n <= |s|
    requires if start < |s| && s[start] == '-' then first == start + 1 else first == start
    requires forall i :: first <= i < first + n ==> Numeric(s[i])
    requires first + n < |s| ==> !Numeric(s[first + n])
    ensures IntegerScan(s, start).pos == first + n
    ensures var e := IntegerScan(s, start).error;
      && (n > 20 ==> e == Some(Overflow))
      && (n <= 20 && first + n == |s| ==> e == Some(UnexpectedEof))
      && (n <= 20 && first + n < |s| && s[first + n] == 'e' && n > 0 ==> e == None)
      && (n <= 20 && first + n < |s| && (s[first + n] != 'e' || n == 0) ==> e == Some(ExpectedDigit))
  {
    hide DigitRun;
    DigitRunIs(s, first, n);
  }

  method CheckInteger(s: string, start: nat) returns (stop: nat, e: Option<Error>)
    requires start <= |s|
    ensures Scan(stop, e) == IntegerScan(s, start)
  {
    stop, e := start, None;
    if stop == |s| {
      return stop, Some(UnexpectedEof);
    }
    if s[stop] == '-' {
      stop := stop + 1;
      if stop == |s| {
        return stop, Some(UnexpectedEof);
      }
    }
    ghost var first := stop;
    var digits := 0;
    while true
      invariant first <= stop == first + digits < |s|
      invariant forall i :: first <= i < stop ==> Numeric(s[i])
      invariant digits > 0 ==> s[stop] != 'e'
      decreases |s| - stop
    {
      if !Numeric(s[stop]) {
        e := Some(ExpectedDigit);
        break;
      }
      stop := stop + 1;
      digits := digits + 1;
      if stop == |s| {
        e := Some(UnexpectedEof);
        break;
      }
      if s[stop] == 'e' {
        break;
      }
    }
    DigitRunIs(s, first, digits);
    if digits > 20 {
      e := Some(Overflow);
    }
  }

  /** What parse_int leaves in val, where it stops and what it reports. */
  datatype Parse = Parse(val: int, pos: nat, error: Option<Error>)

  function ParseFrom(s: string, start: nat, end: nat, delimiter: char, val: int): (r: Parse)
    requires start <= end <= |s|
    ensures start <= r.pos <= end
    ensures 0 <= val ==> 0 <= r.val
    decreases end - start
  {
    if start == end || s[start] == delimiter then Parse(val, start, None)
    else if !Numeric(s[start]) then Parse(val, start, Some(ExpectedDigit))
    else if val > INT64_MAX / 10 then Parse(val, start, Some(Overflow))
    else if val * 10 > INT64_MAX - DigitOf(s[start]) then Parse(val * 10, start, Some(Overflow))
    else ParseFrom(s, start + 1, end, delimiter, val * 10 + DigitOf(s[start]))
  }

  method ParseInt(s: string, start: nat, end: nat, delimiter: char, val: int)
      returns (val': int, stop: nat, ec: Option<Error>)
    requires start <= end <= |s|
    requires 0 <= val <= INT64_MAX
    ensures Parse(val', stop, ec) == ParseFrom(s, start, end, delimiter, val)
    ensures start <= stop <= end && 0 <= val' <= INT64_MAX
  {
    val', stop, ec := val, start, None;
    while stop < end && s[stop] != delimiter
      invariant start <= stop <= end
      invariant 0 <= val' <= INT64_MAX
      invariant ParseFrom(s, stop, end, delimiter, val') == ParseFrom(s, start, end, delimiter, val)
    {
      if !Numeric(s[stop]) {
        return val', stop, Some(ExpectedDigit);
      }
      if val' > INT64_MAX / 10 {
        return val', stop, Some(Overflow);
      }
      val' := val' * 10;
      var digit := DigitOf(s[stop]);
      if val' > INT64_MAX - digit {
        return val', stop, Some(Overflow);
      }
      val' := val' + digit;
      stop := stop + 1;
    }
  }

  /** The number a string of digits denotes. */
  function Value(digits: string): (v: nat)
    requires AllNumeric(digits)
  {
    if digits == "" then 0 else Value(digits[..|digits| - 1]) * 10 + DigitOf(digits[|digits| - 1])
  }

  lemma NoDigits()
    ensures Value("") == 0
  {
  }

  /** The shortest digits of n. */
  function Digits(n: nat): (s: string)
    ensures AllNumeric(s) && s != ""
  {
    if n < 10 then [CharOf(n)] else Digits(n / 10) + [CharOf(n % 10)]
  }

  predicate NoLeadingZero(digits: string) {
    |digits| > 0 && (digits[0] == '0' ==> |digits| == 1)
  }

  lemma {:induction false} ValueOfDigits(n: nat)
    ensures Value(Digits(n)) == n
    ensures NoLeadingZero(Digits(n)) && (Digits(n)[0] == '0' <==> n == 0)
  {
    if n >= 10 {
      ValueOfDigits(n / 10);
      assert Digits(n)[..|Digits(n)| - 1] == Digits(n / 10);
    } else {
      assert Digits(n)[..0] == "";
    }
  }

  lemma {:induction false} DigitsOfValue(digits: string)
    requires AllNumeric(digits) && NoLeadingZero(digits)
    ensures Digits(Value(digits)) == digits
    decreases |digits|
  {
    var init := digits[..|digits| - 1];
    assert digits == init + [digits[|digits| - 1]];
    if init != "" {
      DigitsOfValue(init);
      ValueIsPositive(init);
    }
  }

  lemma {:induction false} ValueIsPositive(digits: string)
    requires AllNumeric(digits) && |digits| > 0 && digits[0] != '0'
    ensures Value(digits) > 0
  {
    if |digits| > 1 {
      ValueIsPositive(digits[..|digits| - 1]);
    }
  }

  function Power10(n: nat): (p: nat)
    ensures p >= 1
  {
    if n == 0 then 1 else 10 * Power10(n - 1)
  }

  lemma {:induction false} ValueBound(digits: string)
    requires AllNumeric(digits)
    ensures Value(digits) < Power10(|digits|)
  {
    if digits != "" {
      ValueBound(digits[..|digits| - 1]);
    }
  }

  /** The length of the digits of n tells the power of ten above it. */
  lemma {:induction false} DigitsLength(n: nat, k: nat)
    requires k >= 1
    ensures |Digits(n)| <= k <==> n < Power10(k)
    decreases n
  {
    if n >= 10 {
      if k > 1 {
        DigitsLength(n / 10, k - 1);
      }
    } else {
      assert Power10(k) == 10 * Power10(k - 1);
    }
  }

  lemma {:induction false} ValueConcat(a: string, c: char)
    requires AllNumeric(a) && Numeric(c)
    ensures AllNumeric(a + [c]) && Value(a + [c]) == Value(a) * 10 + DigitOf(c)
  {
    assert (a + [c])[..|a|] == a;
  }

  lemma {:induction false} ValueGrows(a: string, b: string)
    requires AllNumeric(a) && AllNumeric(b)
    ensures AllNumeric(a + b) && Value(a) <= Value(a + b)
    decreases |b|
  {
    if b == "" {
      assert a + b == a;
    } else {
      assert a + b == (a + b[..|b| - 1]) + [b[|b| - 1]];
      ValueGrows(a, b[..|b| - 1]);
      ValueConcat(a + b[..|b| - 1], b[|b| - 1]);
    }
  }

  /** Parsing digits that follow the digits already read: the value of all of them if it
      fits 63 bits, an overflow otherwise. */
  lemma {:induction false} ParseDigits(s: string, start: nat, end: nat, delimiter: char, before: string, digits: string)
    requires start + |digits| <= end <= |s| && s[start..start + |digits|] == digits
    requires AllNumeric(before) && AllNumeric(digits) && !Numeric(delimiter)
    requires start + |digits| < end ==> s[start + |digits|] == delimiter
    requires Value(before) <= INT64_MAX
    ensures AllNumeric(before + digits)
    ensures Value(before + digits) <= INT64_MAX ==>
      ParseFrom(s, start, end, delimiter, Value(before)) == Parse(Value(before + digits), start + |digits|, None)
    ensures Value(before + digits) > INT64_MAX ==>
      ParseFrom(s, start, end, delimiter, Value(before)).error == Some(Overflow)
    decreases |digits|
  {
    hide Value;
    if digits == "" {
      assert before + digits == before;
    } else {
      var c := digits[0];
      assert s[start] == c;
      assert before + digits == before + [c] + digits[1..];
      ValueConcat(before, c);
      ValueGrows(before + [c], digits[1..]);
      if Value(before + [c]) <= INT64_MAX {
        assert s[start + 1..start + 1 + |digits[1..]|] == digits[1..];
        ParseDigits(s, start + 1, end, delimiter, before + [c], digits[1..]);
      }
    }
  }

  /** integer_to_str writes from the back of the buffer, which keeps one place for the
      terminator and, because of the loop's bound, one more than the sign needs. */
  function Room(size: nat, negative: bool): int {
    size - 2 - (if negative then 1 else 0)
  }

  function LastDigits(n: nat, k: int): string {
    if k <= 0 || n == 0 then "" else LastDigits(n / 10, k - 1) + [CharOf(n % 10)]
  }

  /** The text integer_to_str returns for a buffer of the given size. */
  function IntegerText(size: nat, val: int): string {
    (if val < 0 then "-" else "") +
    (if val == 0 then "0" else LastDigits(if val < 0 then -val else val, Room(size, val < 0)))
  }

  /** The loop of integer_to_str: writes the last digits of v in front of last, keeping
      sign places at the start of the buffer. */
  method WriteDigits(buf: array<char>, v: nat, sign: nat, last: nat) returns (p: nat)
    requires sign < last < buf.Length
    modifies buf
    ensures sign <= p < last
    ensures buf[p + 1..last] == LastDigits(v, last - 1 - sign)
    ensures buf[last..] == old(buf[last..])
  {
    var rest := v;
    ghost var written := "";
    p := last - 1;
    while p > sign && rest != 0
      invariant sign <= p < last
      invariant |written| == last - 1 - p
      invariant forall i :: 0 <= i < |written| ==> buf[p + 1 + i] == written[i]
      invariant forall i :: last <= i < buf.Length ==> buf[i] == old(buf[i])
      invariant LastDigits(rest, p - sign) + written == LastDigits(v, last - 1 - sign)
    {
      buf[p] := CharOf(rest % 10);
      calc {
        LastDigits(rest, p - sign) + written;
        LastDigits(rest / 10, p - 1 - sign) + [CharOf(rest % 10)] + written;
        LastDigits(rest / 10, p - 1 - sign) + ([CharOf(rest % 10)] + written);
      }
      written := [CharOf(rest % 10)] + written;
      p := p - 1;
      rest := rest / 10;
    }
  }

  /** buf is the caller's buffer; the text is written at its end, from ptr on. */
  method IntegerToStr(buf: array<char>, val: int) returns (ptr: nat)
    requires buf.Length >= 3
    requires INT64_MIN < val <= INT64_MAX  // the negation of the least value overflows
    modifies buf
    ensures ptr < buf.Length && buf[ptr..buf.Length - 1] == IntegerText(buf.Length, val)
    ensures buf[buf.Length - 1] == '\0'
  {
    var sign, v := 0, val;
    if v < 0 {
      sign, v := 1, -v;
    }
    var last := buf.Length - 1;
    buf[last] := '\0';
    if v == 0 {
      buf[last - 1] := '0';
      return last - 1;
    }
    var p := WriteDigits(buf, v, sign, last);
    assert buf[last] == buf[last..][0];
    if sign == 1 {
      buf[p] := '-';
      assert buf[p..last] == "-" + buf[p + 1..last];
      p := p - 1;
    }
    ptr := p + 1;
  }

  lemma {:induction false} LastDigitsAreDigits(n: nat, k: nat)
    requires n > 0
    ensures LastDigits(n, k) == Digits(n) <==> |Digits(n)| <= k
    ensures |LastDigits(n, k)| <= k
    decreases n
  {
    if k > 0 && n >= 10 {
      LastDigitsAreDigits(n / 10, k - 1);
      if LastDigits(n, k) == Digits(n) {
        assert LastDigits(n / 10, k - 1) == LastDigits(n, k)[..|Digits(n)| - 1] == Digits(n / 10);
      }
    } else if k > 0 {
      assert LastDigits(n / 10, k - 1) == "";
    }
  }

  /** The decimal notation of an integer. */
  function Decimal(val: int): string {
    if val < 0 then "-" + Digits(-val) else Digits(val)
  }

  /** integer_to_str writes the decimal notation exactly when the digits fit its buffer. */
  lemma PrintsDecimal(size: nat, val: int)
    requires size >= 3
    ensures IntegerText(size, val) == Decimal(val)
      <==> (val == 0 || |Digits(if val < 0 then -val else val)| <= Room(size, val < 0))
  {
    if val > 0 {
      LastDigitsAreDigits(val, Room(size, false));
    } else if val < 0 {
      LastDigitsAreDigits(-val, Room(size, true));
      var a, b := LastDigits(-val, Room(size, true)), Digits(-val);
      assert ("-" + a)[1..] == a && ("-" + b)[1..] == b;
    }
  }
}
