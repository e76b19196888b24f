/** The six converters of ConvertUTF.cpp with strict conversion: what one call reads, writes
    and returns, that they undo each other, and that a conversion that ran out of room can
    be resumed. */
module UtfConvert {
  import opened Utf

  datatype Status = ConversionOk | SourceExhausted | TargetExhausted | SourceIllegal

  /** The result of a call, how many units of the source it took, and what it wrote. */
  datatype Outcome = Outcome(status: Status, consumed: nat, output: seq<nat>)

  /** Converts a text from form f to form t into room units. */
  function Convert(f: Form, t: Form, source: seq<nat>, room: nat): (r: Outcome)
    ensures r.consumed <= |source| && |r.output| <= room
    decreases |source|
  {
    if source == [] then Outcome(ConversionOk, 0, [])
    else if f == Utf32 && t == Utf16 && room == 0 then Outcome(TargetExhausted, 0, [])
    else
      match Decode(f, source)
      case Partial => Outcome(SourceExhausted, 0, [])
      case Bad => Outcome(SourceIllegal, 0, [])
      case Char(c, n) =>
        if |Encode(t, c)| > room then Outcome(TargetExhausted, 0, [])
        else Then(n, Encode(t, c), Convert(f, t, source[n..], room - |Encode(t, c)|))
  }

  /** More was converted before. */
  function Then(n: nat, output: seq<nat>, r: Outcome): Outcome {
    Outcome(r.status, n + r.consumed, output + r.output)
  }

  /** The units of a form. */
  predicate Units(f: Form, source: seq<nat>) {
    f == Utf16 ==> forall i :: 0 <= i < |source| ==> source[i] < 0x1_0000
  }

  // ----- what is converted -----

  /** The characters a call converted. */
  ghost function Chars(f: Form, t: Form, source: seq<nat>, room: nat): seq<nat>
    decreases |source|
  {
    if source == [] || (f == Utf32 && t == Utf16 && room == 0) then []
    else
      match Decode(f, source)
      case Partial => []
      case Bad => []
      case Char(c, n) =>
        if |Encode(t, c)| > room then [] else [c] + Chars(f, t, source[n..], room - |Encode(t, c)|)
  }

  /** Another character is converted. */
  predicate Takes(f: Form, t: Form, source: seq<nat>, room: nat) {
    && source != [] && !(f == Utf32 && t == Utf16 && room == 0)
    && Decode(f, source).Char? && |Encode(t, Decode(f, source).c)| <= room
  }

  lemma Unfold(f: Form, t: Form, source: seq<nat>, room: nat)
    ensures Takes(f, t, source, room) ==>
      var d := Decode(f, source);
      var e := Encode(t, d.c);
      && Convert(f, t, source, room) == Then(d.n, e, Convert(f, t, source[d.n..], room - |e|))
      && Chars(f, t, source, room) == [d.c] + Chars(f, t, source[d.n..], room - |e|)
    ensures !Takes(f, t, source, room) ==>
      && Convert(f, t, source, room).consumed == 0 && Convert(f, t, source, room).output == []
      && Chars(f, t, source, room) == []
  {
    hide Decode, Encode;
  }

  /** What was taken from the source and what was written are the same characters in the two
      forms; the source stops between characters. */
  lemma {:induction false} OutputEncodesInput(f: Form, t: Form, source: seq<nat>, room: nat)
    requires Units(f, source)
    ensures var r, cs := Convert(f, t, source, room), Chars(f, t, source, room);
      && AllScalar(cs)
      && source[..r.consumed] == EncodeAll(f, cs)
      && r.output == EncodeAll(t, cs)
    decreases |source|
  {
    hide Decode, Encode, Convert, Chars;
    Unfold(f, t, source, room);
    if Takes(f, t, source, room) {
      var d := Decode(f, source);
      DecodedIsEncoded(f, source);
      OutputEncodesInput(f, t, source[d.n..], room - |Encode(t, d.c)|);
      Prefixed(f, t, source, room, d.c, d.n);
    }
  }

  lemma Prefixed(f: Form, t: Form, source: seq<nat>, room: nat, c: nat, n: nat)
    requires source != [] && Decode(f, source) == Char(c, n) && |Encode(t, c)| <= room
    requires !(f == Utf32 && t == Utf16 && room == 0)
    requires Scalar(c) && source[..n] == Encode(f, c)
    requires var r, cs := Convert(f, t, source[n..], room - |Encode(t, c)|), Chars(f, t, source[n..], room - |Encode(t, c)|);
      AllScalar(cs) && source[n..][..r.consumed] == EncodeAll(f, cs) && r.output == EncodeAll(t, cs)
    ensures var r, cs := Convert(f, t, source, room), Chars(f, t, source, room);
      AllScalar(cs) && source[..r.consumed] == EncodeAll(f, cs) && r.output == EncodeAll(t, cs)
  {
    hide Decode, Encode, Convert, Chars;
    Unfold(f, t, source, room);
    var rest, ds := Convert(f, t, source[n..], room - |Encode(t, c)|), Chars(f, t, source[n..], room - |Encode(t, c)|);
    var cs := [c] + ds;
    assert cs[1..] == ds;
    assert source[..n + rest.consumed] == source[..n] + source[n..][..rest.consumed];
  }

  /** The next character does not fit. The converter from UTF-32 to UTF-16 does not look at
      the source when the target is full. */
  predicate NoRoom(f: Form, t: Form, source: seq<nat>, room: nat)
    requires source != []
  {
    || (Decode(f, source).Char? && |Encode(t, Decode(f, source).c)| > room)
    || (f == Utf32 && t == Utf16 && room == 0)
  }

  lemma StopsAtOnce(f: Form, t: Form, source: seq<nat>, room: nat)
    requires !Takes(f, t, source, room)
    ensures var r := Convert(f, t, source, room);
      && r.consumed == 0 && r.output == [] && source[0..] == source
      && (r.status == ConversionOk <==> source == [])
      && (r.status == SourceExhausted ==> source != [] && Decode(f, source) == Partial)
      && (r.status == SourceIllegal ==> source != [] && Decode(f, source) == Bad)
      && (r.status == TargetExhausted ==> source != [] && NoRoom(f, t, source, room))
  {
    hide Decode, Encode;
  }

  /** A call only stops early where it says why: behind what it took there is no room for
      the next character, or there is none. */
  lemma {:induction false} StatusIsExact(f: Form, t: Form, source: seq<nat>, room: nat)
    ensures var r := Convert(f, t, source, room);
      var rest, left := source[r.consumed..], room - |r.output|;
      && (r.status == ConversionOk <==> rest == [])
      && (r.status == SourceExhausted ==> rest != [] && Decode(f, rest) == Partial)
      && (r.status == SourceIllegal ==> rest != [] && Decode(f, rest) == Bad)
      && (r.status == TargetExhausted ==> rest != [] && NoRoom(f, t, rest, left))
    decreases |source|
  {
    hide Decode, Encode, Convert, Chars;
    Unfold(f, t, source, room);
    if Takes(f, t, source, room) {
      var d := Decode(f, source);
      var rest := Convert(f, t, source[d.n..], room - |Encode(t, d.c)|);
      StatusIsExact(f, t, source[d.n..], room - |Encode(t, d.c)|);
      assert source[d.n + rest.consumed..] == source[d.n..][rest.consumed..];
    } else {
      StopsAtOnce(f, t, source, room);
    }
  }

  /** Every text of scalar values converts as a whole, given room, to the same characters:
      so each converter undoes the one in the other direction. */
  lemma {:induction false} ConvertsText(f: Form, t: Form, cs: seq<nat>, room: nat)
    requires AllScalar(cs) && |EncodeAll(t, cs)| <= room
    ensures Convert(f, t, EncodeAll(f, cs), room)
      == Outcome(ConversionOk, |EncodeAll(f, cs)|, EncodeAll(t, cs))
    decreases |cs|
  {
    hide Decode, Encode, Chars;
    if cs != [] {
      hide Convert, EncodeAll;
      var c, ds := cs[0], cs[1..];
      TextSplits(f, cs);
      TextSplits(t, cs);
      EncodedIsDecoded(f, c, EncodeAll(f, cs));
      Unfold(f, t, EncodeAll(f, cs), room);
      ConvertsText(f, t, ds, room - |Encode(t, c)|);
    }
  }

  lemma TextSplits(f: Form, cs: seq<nat>)
    requires cs != []
    ensures var text, e := EncodeAll(f, cs), Encode(f, cs[0]);
      && e <= text && text != [] && text[|e|..] == EncodeAll(f, cs[1..]) && text == e + EncodeAll(f, cs[1..])
  {
    hide Encode;
    EncodingNotEmpty(f, cs[0]);
  }

  /** Two steps by way of a third form convert the same as one, whatever the source holds. */
  lemma ConversionsCompose(f: Form, m: Form, t: Form, source: seq<nat>, room1: nat, room2: nat, room: nat)
    requires Units(f, source)
    requires var a, c := Convert(f, m, source, room1), Convert(f, t, source, room);
      a.status != TargetExhausted && c.status != TargetExhausted && |c.output| <= room2
    ensures var a, c := Convert(f, m, source, room1), Convert(f, t, source, room);
      Convert(m, t, a.output, room2) == Outcome(ConversionOk, |a.output|, c.output) && a.consumed == c.consumed
  {
    OutputEncodesInput(f, m, source, room1);
    OutputEncodesInput(f, t, source, room);
    SameChars(f, m, t, source, room1, room);
    ConvertsText(m, t, Chars(f, m, source, room1), room2);
  }

  /** With enough room the characters found do not depend on the form they go to. */
  lemma {:induction false} SameChars(f: Form, m: Form, t: Form, source: seq<nat>, room1: nat, room2: nat)
    requires Convert(f, m, source, room1).status != TargetExhausted
    requires Convert(f, t, source, room2).status != TargetExhausted
    ensures Chars(f, m, source, room1) == Chars(f, t, source, room2)
    ensures Convert(f, m, source, room1).consumed == Convert(f, t, source, room2).consumed
    decreases |source|
  {
    hide Decode, Encode, Convert, Chars;
    Unfold(f, m, source, room1);
    Unfold(f, t, source, room2);
    StopsEarly(f, m, source, room1);
    StopsEarly(f, t, source, room2);
    if source != [] && Decode(f, source).Char? {
      var d := Decode(f, source);
      SameChars(f, m, t, source[d.n..], room1 - |Encode(m, d.c)|, room2 - |Encode(t, d.c)|);
    }
  }

  /** Given room, nothing but the source stops a conversion. */
  lemma StopsEarly(f: Form, t: Form, source: seq<nat>, room: nat)
    requires Convert(f, t, source, room).status != TargetExhausted
    ensures Takes(f, t, source, room) <==> source != [] && Decode(f, source).Char?
  {
    hide Decode, Encode;
  }

  /** A conversion that ran out of room is resumed where it stopped: with more room for the
      rest the two calls give what one call with all of the room gives. */
  lemma {:induction false} Resumes(f: Form, t: Form, source: seq<nat>, room1: nat, room2: nat)
    requires Convert(f, t, source, room1).status == TargetExhausted
    ensures var a := Convert(f, t, source, room1);
      Convert(f, t, source, |a.output| + room2) == Then(a.consumed, a.output, Convert(f, t, source[a.consumed..], room2))
    decreases |source|
  {
    hide Decode, Encode, Convert, Chars;
    var a := Convert(f, t, source, room1);
    Unfold(f, t, source, room1);
    if !Takes(f, t, source, room1) {
      assert source[0..] == source;
    } else {
      var d := Decode(f, source);
      var e := Encode(t, d.c);
      EncodingNotEmpty(t, d.c);
      Resumes(f, t, source[d.n..], room1 - |e|, room2);
      Unfold(f, t, source, |a.output| + room2);
      var b := Convert(f, t, source[d.n..], room1 - |e|);
      var rest := Convert(f, t, source[a.consumed..], room2);
      assert source[d.n..][b.consumed..] == source[a.consumed..];
      assert |a.output| + room2 - |e| == |b.output| + room2;
      assert e + (b.output + rest.output) == e + b.output + rest.output;
    }
  }

  // ----- the loops -----

  /** How far a loop is: pos units of the source and out of the target are done. */
  ghost predicate Underway(f: Form, t: Form, source: seq<nat>, start: nat, room: nat, pos: nat, out: seq<nat>) {
    && start <= pos <= |source| && |out| <= room
    && Convert(f, t, source[start..], room) == Then(pos - start, out, Convert(f, t, source[pos..], room - |out|))
  }

  lemma Begins(f: Form, t: Form, source: seq<nat>, start: nat, room: nat)
    requires start <= |source|
    ensures Underway(f, t, source, start, room, start, [])
  {
    hide Convert;
    var r := Convert(f, t, source[start..], room);
    assert [] + r.output == r.output;
  }

  /** One more character was converted. */
  lemma Advances(f: Form, t: Form, source: seq<nat>, start: nat, room: nat, pos: nat, out: seq<nat>, c: nat, n: nat)
    requires Underway(f, t, source, start, room, pos, out) && pos < |source|
    requires Decode(f, source[pos..]) == Char(c, n) && |out| + |Encode(t, c)| <= room
    ensures Underway(f, t, source, start, room, pos + n, out + Encode(t, c))
  {
    hide Decode, Encode;
    EncodingNotEmpty(t, c);
    assert source[pos..][n..] == source[pos + n..];
    var rest := Convert(f, t, source[pos + n..], room - |out| - |Encode(t, c)|);
    assert out + (Encode(t, c) + rest.output) == out + Encode(t, c) + rest.output;
  }

  lemma EncodingNotEmpty(t: Form, c: nat)
    ensures |Encode(t, c)| >= 1
  {
  }

  /** The loop stops at pos with the status that the rest has. */
  lemma Stops(f: Form, t: Form, source: seq<nat>, start: nat, room: nat, pos: nat, out: seq<nat>)
    requires Underway(f, t, source, start, room, pos, out)
    ensures pos == |source| ==> Convert(f, t, source[start..], room) == Outcome(ConversionOk, pos - start, out)
    ensures pos < |source| ==>
      && (Decode(f, source[pos..]) == Partial && !(f == Utf32 && t == Utf16) ==>
            Convert(f, t, source[start..], room) == Outcome(SourceExhausted, pos - start, out))
      && (Decode(f, source[pos..]) == Bad && (f == Utf32 && t == Utf16 ==> |out| < room) ==>
            Convert(f, t, source[start..], room) == Outcome(SourceIllegal, pos - start, out))
      && (Decode(f, source[pos..]).Char? && |Encode(t, Decode(f, source[pos..]).c)| > room - |out| ==>
            Convert(f, t, source[start..], room) == Outcome(TargetExhausted, pos - start, out))
      && (f == Utf32 && t == Utf16 && |out| == room ==>
            Convert(f, t, source[start..], room) == Outcome(TargetExhausted, pos - start, out))
  {
    hide Decode, Encode;
    assert out + [] == out;
  }

  /** The units from..to of the target hold out and the others are as they were. */
  ghost predicate Wrote(target: array<nat>, was: seq<nat>, from: nat, to: nat, out: seq<nat>)
    reads target
  {
    && from <= to <= target.Length == |was|
    && target[from..to] == out
    && target[..from] == was[..from] && target[to..] == was[to..]
  }

  // ----- writing one character -----

  /** A character in UTF-16: one unit, or a surrogate pair. */
  method Write16(target: array<nat>, at: nat, c: nat, ghost was: seq<nat>, ghost from: nat, ghost out: seq<nat>)
      returns (at': nat)
    requires Wrote(target, was, from, at, out) && at + |Encode16(c)| <= target.Length
    modifies target
    ensures at' == at + |Encode16(c)| && Wrote(target, was, from, at', out + Encode16(c))
  {
    if c <= 0xFFFF {
      target[at] := c;
      at' := at + 1;
    } else {
      var ch := c - 0x1_0000;
      target[at] := ch / 0x400 + 0xD800;
      target[at + 1] := ch % 0x400 + 0xDC00;
      at' := at + 2;
    }
    Written(target, was, from, at, at', out, Encode16(c));
  }

  /** The units before at are those that were written before, and e was written behind. */
  lemma Written(target: array<nat>, was: seq<nat>, from: nat, at: nat, at': nat, out: seq<nat>, e: seq<nat>)
    requires from <= at <= at' <= target.Length == |was|
    requires target[from..at] == out && target[..from] == was[..from] && target[at'..] == was[at'..]
    requires target[at..at'] == e
    ensures Wrote(target, was, from, at', out + e)
  {
    assert target[from..at'] == target[from..at] + target[at..at'];
  }

  /** How many bytes a character takes in UTF-8. */
  function BytesToWrite(c: nat): (n: nat)
    ensures n == |Encode8(c)|
  {
    if c < 0x80 then 1 else if c < 0x800 then 2 else if c < 0x1_0000 then 3 else 4
  }

  /** firstByteMark. */
  function FirstByteMark(n: nat): nat {
    if n <= 1 then 0 else if n == 2 then 0xC0 else if n == 3 then 0xE0 else 0xF0
  }

  /** A character in UTF-8: the bytes are written from the last one to the first, six bits
      at a time. */
  method Write8(target: array<nat>, at: nat, c: nat, ghost was: seq<nat>, ghost from: nat, ghost out: seq<nat>)
      returns (at': nat)
    requires Wrote(target, was, from, at, out) && at + |Encode8(c)| <= target.Length
    modifies target
    ensures at' == at + |Encode8(c)| && Wrote(target, was, from, at', out + Encode8(c))
  {
    hide Encode8, Upper, Trailing, FirstByteMark;
    var n := BytesToWrite(c);
    at' := at + n;
    ghost var before := target[..];
    var p, ch := at', c;
    Sextets(c, 0);
    while p > at + 1
      invariant at + 1 <= p <= at' && p - at <= 4
      invariant ch == Upper(c, at' - p)
      invariant forall i :: p <= i < at' ==> target[i] == Trailing(c, at' - 1 - i)
      invariant forall i :: 0 <= i < target.Length && !(p <= i < at') ==> target[i] == before[i]
    {
      p := p - 1;
      Sextets(c, at' - p - 1);
      target[p] := 0x80 + ch % 0x40;
      ch := ch / 0x40;
    }
    p := p - 1;
    target[p] := ch + FirstByteMark(n);
    BytesAre(c, target[at..at']);
    Beside(before, target[..], from, at, at');
    Written(target, was, from, at, at', out, Encode8(c));
  }

  /** Only the units at..at' differ. */
  lemma Beside(a: seq<nat>, b: seq<nat>, from: nat, at: nat, at': nat)
    requires from <= at <= at' <= |a| == |b|
    requires forall i :: 0 <= i < |a| && !(at <= i < at') ==> b[i] == a[i]
    ensures b[from..at] == a[from..at] && b[..from] == a[..from] && b[at'..] == a[at..][at' - at..]
  {
  }

  /** What is left of a character after k trailing bytes, and the byte that comes before
      them. */
  function Upper(c: nat, k: nat): nat {
    if k == 0 then c else if k == 1 then c / 0x40 else if k == 2 then c / 0x1000 else c / 0x4_0000
  }

  function Trailing(c: nat, k: nat): nat {
    0x80 + Upper(c, k) % 0x40
  }

  lemma Sextets(c: nat, k: nat)
    requires k < 3
    ensures Upper(c, 0) == c && Upper(c, k) / 0x40 == Upper(c, k + 1)
    ensures Trailing(c, k) == 0x80 + Upper(c, k) % 0x40
  {
    DivideTwice(c);
    DivideAgain(c);
  }

  lemma BytesAre(c: nat, e: seq<nat>)
    requires |e| == BytesToWrite(c)
    requires e[0] == Upper(c, |e| - 1) + FirstByteMark(|e|)
    requires forall i :: 1 <= i < |e| ==> e[i] == Trailing(c, |e| - 1 - i)
    ensures e == Encode8(c)
  {
  }
}
