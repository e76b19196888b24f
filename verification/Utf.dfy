/** The encoding forms of ConvertUTF.cpp. Encode is the definition: RFC 3629 sections 3 and
    4 for UTF-8, RFC 2781 section 2 for UTF-16. Decode is what the converters do to find the
    next character: they look the length up by the first byte, check the bytes, and take
    the marks off with one subtraction. */
module Utf {

  /** How characters are written; a text is a sequence of units. */
  datatype Form = Utf8 | Utf16 | Utf32

  predicate Scalar(c: nat) {
    c < 0xD800 || 0xE000 <= c < 0x11_0000
  }

  predicate AllScalar(cs: seq<nat>) {
    forall i :: 0 <= i < |cs| ==> Scalar(cs[i])
  }

  /** The units of one character. */
  function Encode(f: Form, c: nat): (e: seq<nat>)
    ensures 1 <= |e| <= 4
  {
    match f
    case Utf8 => Encode8(c)
    case Utf16 => Encode16(c)
    case Utf32 => [c]
  }

  function Encode8(c: nat): (e: seq<nat>)
    ensures 1 <= |e| <= 4
  {
    if c < 0x80 then [c]
    else if c < 0x800 then [0xC0 + c / 0x40, 0x80 + c % 0x40]
    else if c < 0x1_0000 then [0xE0 + c / 0x1000, 0x80 + c / 0x40 % 0x40, 0x80 + c % 0x40]
    else [0xF0 + c / 0x4_0000, 0x80 + c / 0x1000 % 0x40, 0x80 + c / 0x40 % 0x40, 0x80 + c % 0x40]
  }

  function Encode16(c: nat): (e: seq<nat>)
    ensures 1 <= |e| <= 2
  {
    if c < 0x1_0000 then [c] else [0xD800 + (c - 0x1_0000) / 0x400, 0xDC00 + (c - 0x1_0000) % 0x400]
  }

  function EncodeAll(f: Form, cs: seq<nat>): seq<nat> {
    if cs == [] then [] else Encode(f, cs[0]) + EncodeAll(f, cs[1..])
  }

  // ----- the next character of a text -----

  /** trailingBytesForUTF8. */
  function TrailingBytes(b: nat): (n: nat)
    ensures n <= 5
  {
    if b < 0xC0 then 0 else if b < 0xE0 then 1 else if b < 0xF0 then 2
    else if b < 0xF8 then 3 else if b < 0xFC then 4 else 5
  }

  predicate Continuation(b: nat) {
    0x80 <= b <= 0xBF
  }

  /** isLegalUTF8(): the trailing bytes from the last one to the first, then the first
      trailing byte against the first byte, then the first byte. */
  predicate LegalUtf8(source: seq<nat>, length: nat)
    requires 1 <= length <= |source|
  {
    && length <= 4
    && (length >= 4 ==> Continuation(source[length - 1]))
    && (length >= 3 ==> Continuation(source[2]))
    && (length >= 2 ==> Continuation(source[1]) && SecondByteOk(source[0], source[1]))
    && !(0x80 <= source[0] < 0xC2)
    && source[0] <= 0xF4
  }

  predicate SecondByteOk(b: nat, a: nat) {
    if b == 0xE0 then a >= 0xA0
    else if b == 0xED then a <= 0x9F
    else if b == 0xF0 then a >= 0x90
    else if b == 0xF4 then a <= 0x8F
    else true
  }

  /** isLegalUTF8Sequence(). */
  predicate LegalUtf8Sequence(source: seq<nat>)
    requires source != []
  {
    TrailingBytes(source[0]) + 1 <= |source| && LegalUtf8(source, TrailingBytes(source[0]) + 1)
  }

  /** offsetsFromUTF8, for the lengths that can be legal. */
  function Offset8(extra: nat): nat {
    if extra == 0 then 0 else if extra == 1 then 0x3080 else if extra == 2 then 0xE2080 else 0x3C8_2080
  }

  /** The bytes put together, six bits for each trailing byte, marks included. */
  function Gather(source: seq<nat>, n: nat): nat
    requires n <= |source|
  {
    if n == 0 then 0 else Gather(source, n - 1) * 0x40 + source[n - 1]
  }

  /** The next character and its length, or why there is none. */
  datatype Found = Char(c: nat, n: nat) | Partial | Bad

  function Decode(f: Form, source: seq<nat>): (r: Found)
    requires source != []
    ensures r.Char? ==> 1 <= r.n <= |source|
  {
    match f
    case Utf8 => Decode8(source)
    case Utf16 => Decode16(source)
    case Utf32 => if Scalar(source[0]) then Char(source[0], 1) else Bad
  }

  function Decode8(source: seq<nat>): (r: Found)
    requires source != []
    ensures r.Char? ==> 1 <= r.n <= |source|
  {
    var n := TrailingBytes(source[0]) + 1;
    if n > |source| then Partial
    else if !LegalUtf8(source, n) then Bad
    else
      GatherIs(source, n);
      Char(Gather(source, n) - Offset8(n - 1), n)
  }

  function Decode16(source: seq<nat>): (r: Found)
    requires source != []
    ensures r.Char? ==> 1 <= r.n <= |source|
  {
    var u := source[0];
    if 0xD800 <= u <= 0xDBFF then
      if |source| == 1 then Partial
      else if 0xDC00 <= source[1] <= 0xDFFF then
        Char((u - 0xD800) * 0x400 + (source[1] - 0xDC00) + 0x1_0000, 2)
      else Bad
    else if 0xDC00 <= u <= 0xDFFF then Bad
    else Char(u, 1)
  }

  // ----- one character there and back -----

  /** A legal sequence is the encoding of the character it is decoded to. */
  lemma GatherIs(source: seq<nat>, n: nat)
    requires source != [] && n == TrailingBytes(source[0]) + 1 <= |source| && LegalUtf8(source, n)
    ensures Gather(source, n) >= Offset8(n - 1)
    ensures var c := Gather(source, n) - Offset8(n - 1); Scalar(c) && source[..n] == Encode8(c)
  {
    if n == 1 {
      GatherOne(source);
    } else if n == 2 {
      GatherTwo(source);
    } else if n == 3 {
      GatherThree(source);
    } else {
      GatherFour(source);
    }
  }

  lemma GatherOne(source: seq<nat>)
    requires |source| >= 1 && source[0] < 0x80
    ensures Gather(source, 1) == source[0] && source[..1] == Encode8(source[0])
  {
    assert Gather(source, 0) == 0;
  }

  lemma GatherTwo(source: seq<nat>)
    requires |source| >= 2 && 0xC2 <= source[0] < 0xE0 && Continuation(source[1])
    ensures Gather(source, 2) >= 0x3080
    ensures var c := Gather(source, 2) - 0x3080; Scalar(c) && source[..2] == Encode8(c)
  {
    hide Encode8, Gather;
    Gathered(source);
    TwoBytes(source[0] - 0xC0, source[1] - 0x80);
    assert source[..2] == [source[0], source[1]];
  }

  lemma GatherThree(source: seq<nat>)
    requires |source| >= 3 && 0xE0 <= source[0] < 0xF0 && Continuation(source[1]) && Continuation(source[2])
    requires SecondByteOk(source[0], source[1])
    ensures Gather(source, 3) >= 0xE2080
    ensures var c := Gather(source, 3) - 0xE2080; Scalar(c) && source[..3] == Encode8(c)
  {
    hide Encode8, Gather;
    Gathered(source);
    ThreeBytes(source[0] - 0xE0, source[1] - 0x80, source[2] - 0x80);
    assert source[..3] == [source[0], source[1], source[2]];
  }

  lemma GatherFour(source: seq<nat>)
    requires |source| >= 4 && 0xF0 <= source[0] <= 0xF4
    requires Continuation(source[1]) && Continuation(source[2]) && Continuation(source[3])
    requires SecondByteOk(source[0], source[1])
    ensures Gather(source, 4) >= 0x3C8_2080
    ensures var c := Gather(source, 4) - 0x3C8_2080; Scalar(c) && source[..4] == Encode8(c)
  {
    hide Encode8, Gather;
    Gathered(source);
    FourBytes(source[0] - 0xF0, source[1] - 0x80, source[2] - 0x80, source[3] - 0x80);
    assert source[..4] == [source[0], source[1], source[2], source[3]];
  }

  lemma Gathered(source: seq<nat>)
    ensures |source| >= 2 ==> Gather(source, 2) == source[0] * 0x40 + source[1]
    ensures |source| >= 3 ==> Gather(source, 3) == source[0] * 0x1000 + source[1] * 0x40 + source[2]
    ensures |source| >= 4 ==> Gather(source, 4) == source[0] * 0x4_0000 + source[1] * 0x1000 + source[2] * 0x40 + source[3]
  {
    assert Gather(source, 0) == 0;
    if |source| >= 2 {
      assert Gather(source, 1) == source[0];
    }
  }

  lemma Div40(q: nat, r: nat)
    requires r < 0x40
    ensures (q * 0x40 + r) / 0x40 == q && (q * 0x40 + r) % 0x40 == r
  {
  }

  lemma Div1000(q: nat, r: nat)
    requires r < 0x1000
    ensures (q * 0x1000 + r) / 0x1000 == q
  {
  }

  lemma Div40000(q: nat, r: nat)
    requires r < 0x4_0000
    ensures (q * 0x4_0000 + r) / 0x4_0000 == q
  {
  }

  lemma SplitThree(a: nat, b: nat, d: nat)
    requires b < 0x40 && d < 0x40
    ensures var c := a * 0x1000 + b * 0x40 + d;
      c / 0x1000 == a && c / 0x40 % 0x40 == b && c % 0x40 == d
  {
    Div40(a * 0x40 + b, d);
    Div40(a, b);
    Div1000(a, b * 0x40 + d);
  }

  lemma SplitFour(a: nat, b: nat, d: nat, e: nat)
    requires b < 0x40 && d < 0x40 && e < 0x40
    ensures var c := a * 0x4_0000 + b * 0x1000 + d * 0x40 + e;
      && c / 0x4_0000 == a && c / 0x1000 % 0x40 == b && c / 0x40 % 0x40 == d && c % 0x40 == e
  {
    SplitThree(a * 0x40 + b, d, e);
    Div40(a, b);
    Div40000(a, b * 0x1000 + d * 0x40 + e);
  }

  lemma TwoBytes(a: nat, b: nat)
    requires 2 <= a < 0x20 && b < 0x40
    ensures Scalar(a * 0x40 + b) && Encode8(a * 0x40 + b) == [0xC0 + a, 0x80 + b]
  {
    Div40(a, b);
  }

  lemma ThreeBytes(a: nat, b: nat, d: nat)
    requires a < 0x10 && b < 0x40 && d < 0x40 && (a == 0 ==> b >= 0x20) && (a == 0xD ==> b < 0x20)
    ensures var c := a * 0x1000 + b * 0x40 + d; Scalar(c) && Encode8(c) == [0xE0 + a, 0x80 + b, 0x80 + d]
  {
    SplitThree(a, b, d);
  }

  lemma FourBytes(a: nat, b: nat, d: nat, e: nat)
    requires a <= 4 && b < 0x40 && d < 0x40 && e < 0x40 && (a == 0 ==> b >= 0x10) && (a == 4 ==> b < 0x10)
    ensures var c := a * 0x4_0000 + b * 0x1000 + d * 0x40 + e;
      Scalar(c) && Encode8(c) == [0xF0 + a, 0x80 + b, 0x80 + d, 0x80 + e]
  {
    SplitFour(a, b, d, e);
  }

  lemma Gather8(source: seq<nat>, c: nat)
    requires Scalar(c) && Encode8(c) <= source
    ensures TrailingBytes(source[0]) + 1 == |Encode8(c)| && LegalUtf8(source, |Encode8(c)|)
    ensures Gather(source, |Encode8(c)|) - Offset8(|Encode8(c)| - 1) == c
  {
    var e := Encode8(c);
    assert forall i :: 0 <= i < |e| ==> source[i] == e[i];
    EncodedIsLegal(c, source);
    GatherIs(source, |e|);
    var d := Gather(source, |e|) - Offset8(|e| - 1);
    assert source[..|e|] == e;
    Encode8Injective(c, d);
  }

  lemma EncodedIsLegal(c: nat, source: seq<nat>)
    requires Scalar(c) && |Encode8(c)| <= |source|
    requires forall i :: 0 <= i < |Encode8(c)| ==> source[i] == Encode8(c)[i]
    ensures TrailingBytes(source[0]) + 1 == |Encode8(c)| && LegalUtf8(source, |Encode8(c)|)
  {
    var e := Encode8(c);
    assert source[0] == e[0];
    if |e| >= 2 {
      assert source[1] == e[1];
    }
    if |e| >= 3 {
      assert source[2] == e[2];
    }
    if |e| == 4 {
      assert source[3] == e[3];
    }
  }

  lemma Encode8Injective(c: nat, d: nat)
    requires Encode8(c) == Encode8(d)
    ensures c == d
  {
    var a, b := Encode8(c), Encode8(d);
    assert |a| == |b|;
    assert a[0] == b[0];
    if |a| >= 2 {
      assert a[1] == b[1];
    }
    if |a| >= 3 {
      assert a[2] == b[2];
    }
    if |a| == 4 {
      assert a[3] == b[3];
      SplitCode(c);
      SplitCode(d);
    } else if |a| == 3 {
      SplitCode3(c);
      SplitCode3(d);
    }
  }

  /** A number is made of its last six bits and the others. */
  lemma LastSix(c: nat)
    ensures c == c / 0x40 * 0x40 + c % 0x40
  {
  }

  lemma DivideTwice(c: nat)
    ensures c / 0x40 / 0x40 == c / 0x1000
  {
  }

  lemma DivideAgain(c: nat)
    ensures c / 0x1000 / 0x40 == c / 0x4_0000
  {
  }

  lemma SplitCode(c: nat)
    ensures c == c / 0x4_0000 * 0x4_0000 + c / 0x1000 % 0x40 * 0x1000 + c / 0x40 % 0x40 * 0x40 + c % 0x40
  {
    SplitCode3(c);
    LastSix(c / 0x1000);
    DivideAgain(c);
  }

  lemma SplitCode3(c: nat)
    ensures c == c / 0x1000 * 0x1000 + c / 0x40 % 0x40 * 0x40 + c % 0x40
  {
    LastSix(c);
    LastSix(c / 0x40);
    DivideTwice(c);
  }

  /** What is decoded is a scalar value, and the units taken are its encoding. */
  lemma DecodedIsEncoded(f: Form, source: seq<nat>)
    requires source != [] && Decode(f, source).Char? && (f == Utf16 ==> source[0] < 0x1_0000)
    ensures var r := Decode(f, source); Scalar(r.c) && source[..r.n] == Encode(f, r.c)
  {
    var r := Decode(f, source);
    match f
    case Utf8 => GatherIs(source, r.n);
    case Utf32 =>
    case Utf16 => Decoded16(source);
  }

  lemma Decoded16(source: seq<nat>)
    requires source != [] && source[0] < 0x1_0000 && Decode16(source).Char?
    ensures var r := Decode16(source); Scalar(r.c) && source[..r.n] == Encode16(r.c)
  {
    var r := Decode16(source);
    if r.n == 2 {
      assert (r.c - 0x1_0000) / 0x400 == source[0] - 0xD800 && (r.c - 0x1_0000) % 0x400 == source[1] - 0xDC00;
    }
  }

  /** The encoding of a character is decoded to it, whatever follows. */
  lemma EncodedIsDecoded(f: Form, c: nat, source: seq<nat>)
    requires Scalar(c) && Encode(f, c) <= source
    ensures source != [] && Decode(f, source) == Char(c, |Encode(f, c)|)
  {
    match f
    case Utf8 => Gather8(source, c);
    case Utf32 => assert source[0] == Encode(Utf32, c)[0];
    case Utf16 => Encoded16(c, source);
  }

  lemma Encoded16(c: nat, source: seq<nat>)
    requires Scalar(c) && Encode16(c) <= source
    ensures source != [] && Decode16(source) == Char(c, |Encode16(c)|)
  {
    assert source[0] == Encode16(c)[0];
    if c >= 0x1_0000 {
      assert source[1] == Encode16(c)[1];
    }
  }

  /** How many units the first one asks for. */
  predicate AsksForMore(f: Form, first: nat, n: nat) {
    match f
    case Utf8 =>
      || (0xC0 <= first < 0xE0 && n < 2) || (0xE0 <= first < 0xF0 && n < 3) || (0xF0 <= first < 0xF8 && n < 4)
      || (0xF8 <= first < 0xFC && n < 5) || (0xFC <= first && n < 6)
    case Utf16 => 0xD800 <= first <= 0xDBFF && n < 2
    case Utf32 => false
  }

  /** A text is cut off exactly if it is shorter than its first unit asks for. It is malformed
      exactly if it is not, and still no character starts it. */
  lemma WhyNotDecoded(f: Form, source: seq<nat>)
    requires source != [] && (f == Utf16 ==> source[0] < 0x1_0000)
    ensures Decode(f, source) == Partial <==> AsksForMore(f, source[0], |source|)
    ensures Decode(f, source) == Bad
      <==> !AsksForMore(f, source[0], |source|) && !(exists c :: Scalar(c) && Encode(f, c) <= source)
  {
    hide Encode, LegalUtf8, Gather;
    if Decode(f, source).Char? {
      DecodedIsEncoded(f, source);
      assert Encode(f, Decode(f, source).c) <= source;
    }
    if c :| Scalar(c) && Encode(f, c) <= source {
      EncodedIsDecoded(f, c, source);
    }
  }

  /** A character of which a part is missing is cut off, not malformed. */
  lemma CutIsPartial(f: Form, c: nat, n: nat)
    requires Scalar(c) && 0 < n < |Encode(f, c)|
    ensures Decode(f, Encode(f, c)[..n]) == Partial
  {
    var e := Encode(f, c);
    assert e[..n][0] == e[0];
    match f
    case Utf8 => EncodedIsLegal(c, e);
    case Utf16 =>
    case Utf32 =>
  }

  /** isLegalUTF8Sequence() accepts exactly the texts that start with a character encoded
      as section 4 of RFC 3629 has it. */
  lemma LegalSequenceIff(source: seq<nat>)
    requires source != []
    ensures LegalUtf8Sequence(source) <==> exists c :: Scalar(c) && Encode8(c) <= source
  {
    if LegalUtf8Sequence(source) {
      var n := TrailingBytes(source[0]) + 1;
      GatherIs(source, n);
      var c := Gather(source, n) - Offset8(n - 1);
      assert Scalar(c) && Encode8(c) <= source;
    }
    if c :| Scalar(c) && Encode8(c) <= source {
      Gather8(source, c);
    }
  }

  /** What the converters do with masks to the low byte of a character is the arithmetic of
      Encode8(). */
  lemma MasksAreRemainders(x: bv8)
    ensures (x | 0x80) & 0xBF == 0x80 + x % 0x40
    ensures x < 0x20 ==> x | 0xC0 == 0xC0 + x
    ensures x < 0x10 ==> x | 0xE0 == 0xE0 + x
    ensures x < 0x08 ==> x | 0xF0 == 0xF0 + x
  {
    assert x % 0x40 == x & 0x3F;
  }
}
