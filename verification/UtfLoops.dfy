/** The conversion loops of ConvertUTF.cpp. Each takes a range of units and writes into a
    range of the target in place; both ends come back where the conversion stopped. Only
    strict conversion is modelled. */
module UtfLoops {
  import opened Utf
  import opened UtfConvert

  /** What a converter promises: Convert() says what it returns, and nothing of the target
      but the units it wrote is touched. */
  ghost predicate Converted(f: Form, t: Form, source: seq<nat>, start: nat, target: array<nat>, was: seq<nat>,
                            from: nat, end: nat, result: Status, pos: nat, at: nat)
    reads target
  {
    && start <= pos <= |source| && from <= at <= end <= target.Length
    && Wrote(target, was, from, at, target[from..at])
    && Convert(f, t, source[start..], end - from) == Outcome(result, pos - start, target[from..at])
  }

  lemma Nothing(target: array<nat>, from: nat)
    requires from <= target.Length
    ensures Wrote(target, target[..], from, from, [])
  {
  }

  /** The loop invariant of all converters. */
  ghost predicate Going(f: Form, t: Form, source: seq<nat>, start: nat, target: array<nat>, was: seq<nat>,
                        from: nat, end: nat, pos: nat, at: nat, out: seq<nat>)
    reads target
  {
    && from <= at <= end <= target.Length
    && Wrote(target, was, from, at, out) && |out| == at - from
    && Underway(f, t, source, start, end - from, pos, out)
  }

  lemma Goes(f: Form, t: Form, source: seq<nat>, start: nat, target: array<nat>, from: nat, end: nat)
    requires start <= |source| && from <= end <= target.Length
    ensures Going(f, t, source, start, target, target[..], from, end, start, from, [])
  {
    hide Convert;
    Nothing(target, from);
    Begins(f, t, source, start, end - from);
  }

  lemma Ends(f: Form, t: Form, source: seq<nat>, start: nat, target: array<nat>, was: seq<nat>,
             from: nat, end: nat, result: Status, pos: nat, at: nat, out: seq<nat>)
    requires Going(f, t, source, start, target, was, from, end, pos, at, out)
    requires Convert(f, t, source[start..], end - from) == Outcome(result, pos - start, out)
    ensures Converted(f, t, source, start, target, was, from, end, result, pos, at)
  {
    hide Convert;
  }

  // ----- reading one character -----

  /** The bytes of a character put together, as the switch of the converters does. */
  method Read8(source: seq<nat>, pos: nat, extra: nat) returns (ch: nat)
    requires pos + extra < |source|
    ensures ch == Gather(source[pos..], extra + 1)
  {
    hide TrailingBytes;
    ghost var rest := source[pos..];
    ch := 0;
    for n := 0 to extra + 1
      invariant ch == Gather(rest, n)
    {
      ch := ch * 0x40 + source[pos + n];
    }
  }

  /** The next character of a UTF-8 text. */
  method Next8(source: seq<nat>, pos: nat) returns (r: Found)
    requires pos < |source|
    ensures r == Decode(Utf8, source[pos..])
    ensures r.Char? ==> pos + r.n <= |source|
  {
    var extra := TrailingBytes(source[pos]);
    if pos + extra >= |source| {
      return Partial;
    }
    if !LegalUtf8(source[pos..], extra + 1) {
      return Bad;
    }
    var ch := Read8(source, pos, extra);
    GatherIs(source[pos..], extra + 1);
    r := Char(ch - Offset8(extra), extra + 1);
  }

  /** The next character of a UTF-16 text. */
  method Next16(source: seq<nat>, pos: nat) returns (r: Found)
    requires pos < |source|
    ensures r == Decode(Utf16, source[pos..])
    ensures r.Char? ==> pos + r.n <= |source|
  {
    var ch := source[pos];
    if ch >= 0xD800 && ch <= 0xDBFF {
      if pos + 1 < |source| {
        var ch2 := source[pos + 1];
        if ch2 >= 0xDC00 && ch2 <= 0xDFFF {
          return Char((ch - 0xD800) * 0x400 + (ch2 - 0xDC00) + 0x1_0000, 2);
        }
        return Bad;
      }
      return Partial;
    }
    if ch >= 0xDC00 && ch <= 0xDFFF {
      return Bad;
    }
    r := Char(ch, 1);
  }

  // ----- the converters -----

  method ConvertUtf8ToUtf16(source: seq<nat>, start: nat, target: array<nat>, from: nat, end: nat)
      returns (result: Status, pos: nat, at: nat)
    requires start <= |source| && from <= end <= target.Length
    modifies target
    ensures Converted(Utf8, Utf16, source, start, target, old(target[..]), from, end, result, pos, at)
  {
    hide Convert, Decode, Underway, Wrote;
    ghost var was, out: seq<nat> := target[..], [];
    Goes(Utf8, Utf16, source, start, target, from, end);
    result, pos, at := ConversionOk, start, from;
    while pos < |source|
      invariant Going(Utf8, Utf16, source, start, target, was, from, end, pos, at, out) && pos <= |source|
      decreases |source| - pos
    {
      Stops(Utf8, Utf16, source, start, end - from, pos, out);
      var next := Next8(source, pos);
      if !next.Char? {
        result := if next == Partial then SourceExhausted else SourceIllegal;
        Ends(Utf8, Utf16, source, start, target, was, from, end, result, pos, at, out);
        return;
      }
      if at >= end || (next.c > 0xFFFF && at + 1 >= end) {
        result := TargetExhausted;
        Ends(Utf8, Utf16, source, start, target, was, from, end, result, pos, at, out);
        return;
      }
      Advances(Utf8, Utf16, source, start, end - from, pos, out, next.c, next.n);
      at := Write16(target, at, next.c, was, from, out);
      pos, out := pos + next.n, out + Encode16(next.c);
    }
    Stops(Utf8, Utf16, source, start, end - from, pos, out);
    Ends(Utf8, Utf16, source, start, target, was, from, end, result, pos, at, out);
  }

  method ConvertUtf8ToUtf32(source: seq<nat>, start: nat, target: array<nat>, from: nat, end: nat)
      returns (result: Status, pos: nat, at: nat)
    requires start <= |source| && from <= end <= target.Length
    modifies target
    ensures Converted(Utf8, Utf32, source, start, target, old(target[..]), from, end, result, pos, at)
  {
    hide Convert, Decode, Underway, Wrote;
    ghost var was, out: seq<nat> := target[..], [];
    Goes(Utf8, Utf32, source, start, target, from, end);
    result, pos, at := ConversionOk, start, from;
    while pos < |source|
      invariant Going(Utf8, Utf32, source, start, target, was, from, end, pos, at, out) && pos <= |source|
      decreases |source| - pos
    {
      Stops(Utf8, Utf32, source, start, end - from, pos, out);
      var next := Next8(source, pos);
      if !next.Char? {
        result := if next == Partial then SourceExhausted else SourceIllegal;
        Ends(Utf8, Utf32, source, start, target, was, from, end, result, pos, at, out);
        return;
      }
      if at >= end {
        result := TargetExhausted;
        Ends(Utf8, Utf32, source, start, target, was, from, end, result, pos, at, out);
        return;
      }
      Advances(Utf8, Utf32, source, start, end - from, pos, out, next.c, next.n);
      at := Write32(target, at, next.c, was, from, out);
      pos, out := pos + next.n, out + [next.c];
    }
    Stops(Utf8, Utf32, source, start, end - from, pos, out);
    Ends(Utf8, Utf32, source, start, target, was, from, end, result, pos, at, out);
  }

  method Write32(target: array<nat>, at: nat, c: nat, ghost was: seq<nat>, ghost from: nat, ghost out: seq<nat>)
      returns (at': nat)
    requires Wrote(target, was, from, at, out) && at < target.Length
    modifies target
    ensures at' == at + 1 && Wrote(target, was, from, at', out + [c])
  {
    target[at] := c;
    at' := at + 1;
    Written(target, was, from, at, at', out, [c]);
  }

  method ConvertUtf16ToUtf8(source: seq<nat>, start: nat, target: array<nat>, from: nat, end: nat)
      returns (result: Status, pos: nat, at: nat)
    requires start <= |source| && from <= end <= target.Length && Units(Utf16, source)
    modifies target
    ensures Converted(Utf16, Utf8, source, start, target, old(target[..]), from, end, result, pos, at)
  {
    hide Convert, Decode, Underway, Wrote, Encode8;
    ghost var was, out: seq<nat> := target[..], [];
    Goes(Utf16, Utf8, source, start, target, from, end);
    result, pos, at := ConversionOk, start, from;
    while pos < |source|
      invariant Going(Utf16, Utf8, source, start, target, was, from, end, pos, at, out) && pos <= |source|
      decreases |source| - pos
    {
      Stops(Utf16, Utf8, source, start, end - from, pos, out);
      var next := Next16(source, pos);
      if !next.Char? {
        result := if next == Partial then SourceExhausted else SourceIllegal;
        Ends(Utf16, Utf8, source, start, target, was, from, end, result, pos, at, out);
        return;
      }
      if at + BytesToWrite(next.c) > end {
        result := TargetExhausted;
        Ends(Utf16, Utf8, source, start, target, was, from, end, result, pos, at, out);
        return;
      }
      Advances(Utf16, Utf8, source, start, end - from, pos, out, next.c, next.n);
      at := Write8(target, at, next.c, was, from, out);
      pos, out := pos + next.n, out + Encode8(next.c);
    }
    Stops(Utf16, Utf8, source, start, end - from, pos, out);
    Ends(Utf16, Utf8, source, start, target, was, from, end, result, pos, at, out);
  }

  method ConvertUtf16ToUtf32(source: seq<nat>, start: nat, target: array<nat>, from: nat, end: nat)
      returns (result: Status, pos: nat, at: nat)
    requires start <= |source| && from <= end <= target.Length && Units(Utf16, source)
    modifies target
    ensures Converted(Utf16, Utf32, source, start, target, old(target[..]), from, end, result, pos, at)
  {
    hide Convert, Decode, Underway, Wrote;
    ghost var was, out: seq<nat> := target[..], [];
    Goes(Utf16, Utf32, source, start, target, from, end);
    result, pos, at := ConversionOk, start, from;
    while pos < |source|
      invariant Going(Utf16, Utf32, source, start, target, was, from, end, pos, at, out) && pos <= |source|
      decreases |source| - pos
    {
      Stops(Utf16, Utf32, source, start, end - from, pos, out);
      var next := Next16(source, pos);
      if !next.Char? {
        result := if next == Partial then SourceExhausted else SourceIllegal;
        Ends(Utf16, Utf32, source, start, target, was, from, end, result, pos, at, out);
        return;
      }
      if at >= end {
        result := TargetExhausted;
        Ends(Utf16, Utf32, source, start, target, was, from, end, result, pos, at, out);
        return;
      }
      Advances(Utf16, Utf32, source, start, end - from, pos, out, next.c, next.n);
      at := Write32(target, at, next.c, was, from, out);
      pos, out := pos + next.n, out + [next.c];
    }
    Stops(Utf16, Utf32, source, start, end - from, pos, out);
    Ends(Utf16, Utf32, source, start, target, was, from, end, result, pos, at, out);
  }

  predicate CodePoint(c: nat) {
    c < 0x11_0000
  }

  predicate CodePoints(source: seq<nat>) {
    forall i :: 0 <= i < |source| ==> CodePoint(source[i])
  }

  /** Values above 0x10FFFF are replaced by U+FFFD. */
  function Replaced(source: seq<nat>): (r: seq<nat>)
    ensures |r| == |source|
    ensures forall i :: 0 <= i < |r| ==> r[i] == if CodePoint(source[i]) then source[i] else 0xFFFD
  {
    if source == [] then []
    else
      var c := source[|source| - 1];
      Replaced(source[..|source| - 1]) + [if CodePoint(c) then c else 0xFFFD]
  }

  /** What a conversion that replaced something returns: it is not stopped, but it does not
      say that all is well either. */
  function Marked(source: seq<nat>, start: nat, pos: nat, plain: Status): Status
    requires start <= pos <= |source|
  {
    if plain == ConversionOk && !CodePoints(source[start..pos]) then SourceIllegal else plain
  }

  /** Of a text of code points nothing is replaced. */
  lemma NothingReplaced(source: seq<nat>, start: nat, pos: nat, plain: Status)
    requires start <= pos <= |source| && CodePoints(source)
    ensures Replaced(source) == source && Marked(source, start, pos, plain) == plain
  {
    forall i | 0 <= i < pos - start
      ensures CodePoint(source[start..pos][i])
    {
      assert CodePoint(source[start + i]);
    }
  }

  lemma OneMorePoint(source: seq<nat>, start: nat, pos: nat)
    requires start <= pos < |source|
    ensures CodePoints(source[start..pos + 1]) <==> CodePoints(source[start..pos]) && CodePoint(source[pos])
  {
    assert source[start..pos + 1] == source[start..pos] + [source[pos]];
    if CodePoints(source[start..pos + 1]) {
      forall i | 0 <= i < pos - start
        ensures CodePoint(source[start..pos][i])
      {
        assert CodePoint(source[start..pos + 1][i]);
      }
      assert CodePoint(source[start..pos + 1][pos - start]);
    }
  }

  /** plain is the status of converting the text with its replacements. */
  method ConvertUtf32ToUtf8(source: seq<nat>, start: nat, target: array<nat>, from: nat, end: nat)
      returns (result: Status, pos: nat, at: nat, ghost plain: Status)
    requires start <= |source| && from <= end <= target.Length
    modifies target
    ensures Converted(Utf32, Utf8, Replaced(source), start, target, old(target[..]), from, end, plain, pos, at)
    ensures result == Marked(source, start, pos, plain)
  {
    hide Convert, Underway, Wrote, Encode8, Replaced, CodePoints;
    ghost var was, out: seq<nat> := target[..], [];
    ghost var text := Replaced(source);
    Goes(Utf32, Utf8, text, start, target, from, end);
    result, pos, at := ConversionOk, start, from;
    assert source[start..start] == [];
    NoPoints();
    while pos < |source|
      invariant start <= pos <= |source| && Going(Utf32, Utf8, text, start, target, was, from, end, pos, at, out)
      invariant result == Marked(source, start, pos, ConversionOk)
      decreases |source| - pos
    {
      Stops(Utf32, Utf8, text, start, end - from, pos, out);
      OneMorePoint(source, start, pos);
      var ch := source[pos];
      if ch >= 0xD800 && ch <= 0xDFFF {
        result, plain := SourceIllegal, SourceIllegal;
        Ends(Utf32, Utf8, text, start, target, was, from, end, plain, pos, at, out);
        return;
      }
      if ch > 0x10_FFFF {
        ch := 0xFFFD;
        result := SourceIllegal;
      }
      if at + BytesToWrite(ch) > end {
        result, plain := TargetExhausted, TargetExhausted;
        Ends(Utf32, Utf8, text, start, target, was, from, end, plain, pos, at, out);
        return;
      }
      Advances(Utf32, Utf8, text, start, end - from, pos, out, ch, 1);
      at := Write8(target, at, ch, was, from, out);
      pos, out := pos + 1, out + Encode8(ch);
    }
    plain := ConversionOk;
    Stops(Utf32, Utf8, text, start, end - from, pos, out);
    Ends(Utf32, Utf8, text, start, target, was, from, end, plain, pos, at, out);
  }

  lemma NoPoints()
    ensures CodePoints([])
  {
  }

  /** The converter to UTF-16 drops the values above 0x10FFFF. */
  function Kept(source: seq<nat>): seq<nat> {
    if source == [] then []
    else
      var c := source[|source| - 1];
      Kept(source[..|source| - 1]) + (if CodePoint(c) then [c] else [])
  }

  predicate Surrogate(c: nat) {
    0xD800 <= c <= 0xDFFF
  }

  /** Why it stopped at pos with the target filled up to at. */
  predicate StopIsRight(source: seq<nat>, start: nat, pos: nat, at: nat, end: nat, result: Status)
    requires start <= pos <= |source|
  {
    match result
    case ConversionOk => pos == |source| && CodePoints(source[start..pos])
    case SourceExhausted => false
    case SourceIllegal => if pos == |source| then !CodePoints(source[start..pos]) else Surrogate(source[pos]) && at < end
    case TargetExhausted => pos < |source| && (at == end || (0xFFFF < source[pos] < 0x11_0000 && at + 1 == end))
  }

  lemma {:induction false} EncodeOneMore(f: Form, cs: seq<nat>, c: nat)
    ensures EncodeAll(f, cs + [c]) == EncodeAll(f, cs) + Encode(f, c)
  {
    hide Encode;
    if cs == [] {
      assert [c][1..] == [] && cs + [c] == [c];
      assert Encode(f, c) + [] == [] + Encode(f, c);
    } else {
      assert (cs + [c])[1..] == cs[1..] + [c];
      EncodeOneMore(f, cs[1..], c);
    }
  }

  lemma KeptNext(source: seq<nat>, start: nat, pos: nat)
    requires start <= pos < |source|
    ensures var kept, c := Kept(source[start..pos]), source[pos];
      && Kept(source[start..pos + 1]) == (if CodePoint(c) then kept + [c] else kept)
      && (AllScalar(kept) && !Surrogate(c) ==> AllScalar(Kept(source[start..pos + 1])))
      && (CodePoint(c) ==>
            EncodeAll(Utf16, Kept(source[start..pos + 1])) == EncodeAll(Utf16, kept) + Encode16(c))
  {
    hide Encode16;
    assert source[start..pos + 1][..pos - start] == source[start..pos];
    assert Kept(source[start..pos]) + [] == Kept(source[start..pos]);
    EncodeOneMore(Utf16, Kept(source[start..pos]), source[pos]);
  }

  lemma NothingKept(source: seq<nat>, start: nat)
    requires start <= |source|
    ensures CodePoints(source[start..start]) && Kept(source[start..start]) == []
    ensures AllScalar([]) && EncodeAll(Utf16, []) == []
  {
  }

  /** What is written is the text that was consumed without the values that are dropped; of
      a text of code points none are. */
  method ConvertUtf32ToUtf16(source: seq<nat>, start: nat, target: array<nat>, from: nat, end: nat)
      returns (result: Status, pos: nat, at: nat)
    requires start <= |source| && from <= end <= target.Length
    modifies target
    ensures start <= pos <= |source| && from <= at <= end
    ensures Wrote(target, old(target[..]), from, at, EncodeAll(Utf16, Kept(source[start..pos])))
    ensures AllScalar(Kept(source[start..pos]))
    ensures StopIsRight(source, start, pos, at, end, result)
    ensures CodePoints(source) ==> Converted(Utf32, Utf16, source, start, target, old(target[..]), from, end, result, pos, at)
  {
    hide Convert, Underway, Wrote, Kept, CodePoints, AllScalar, EncodeAll, Encode16;
    ghost var was, out: seq<nat> := target[..], [];
    Goes(Utf32, Utf16, source, start, target, from, end);
    NothingKept(source, start);
    result, pos, at := ConversionOk, start, from;
    while pos < |source|
      invariant start <= pos <= |source| && from <= at <= end && |out| == at - from
      invariant out == EncodeAll(Utf16, Kept(source[start..pos])) && AllScalar(Kept(source[start..pos]))
      invariant Wrote(target, was, from, at, out)
      invariant CodePoints(source) ==> Going(Utf32, Utf16, source, start, target, was, from, end, pos, at, out)
      invariant result == if CodePoints(source[start..pos]) then ConversionOk else SourceIllegal
      invariant CodePoints(source) ==> CodePoints(source[start..pos])
      decreases |source| - pos
    {
      OneMorePoint(source, start, pos);
      KeptNext(source, start, pos);
      PointOf(source, pos);
      if at >= end {
        result := TargetExhausted;
        EndsIf(source, start, target, was, from, end, result, pos, at, out);
        return;
      }
      var ch := source[pos];
      if ch <= 0xFFFF {
        if ch >= 0xD800 && ch <= 0xDFFF {
          result := SourceIllegal;
          EndsIf(source, start, target, was, from, end, result, pos, at, out);
          return;
        }
        AdvancesIf(source, start, target, was, from, end, pos, at, out, ch);
        at := Write16(target, at, ch, was, from, out);
        out := out + Encode16(ch);
      } else if ch > 0x10_FFFF {
        result := SourceIllegal;
      } else {
        if at + 1 >= end {
          result := TargetExhausted;
          EndsIf(source, start, target, was, from, end, result, pos, at, out);
          return;
        }
        AdvancesIf(source, start, target, was, from, end, pos, at, out, ch);
        at := Write16(target, at, ch, was, from, out);
        out := out + Encode16(ch);
      }
      pos := pos + 1;
    }
    EndsIf(source, start, target, was, from, end, result, pos, at, out);
  }

  lemma PointOf(source: seq<nat>, pos: nat)
    requires pos < |source|
    ensures CodePoints(source) ==> CodePoint(source[pos])
    ensures |Encode16(source[pos])| == if source[pos] <= 0xFFFF then 1 else 2
  {
  }

  lemma EndsIf(source: seq<nat>, start: nat, target: array<nat>, was: seq<nat>, from: nat, end: nat, result: Status,
               pos: nat, at: nat, out: seq<nat>)
    requires start <= pos <= |source| && from <= at <= end
    requires CodePoints(source) ==> Going(Utf32, Utf16, source, start, target, was, from, end, pos, at, out)
    requires CodePoints(source) && pos == |source| ==> result == ConversionOk
    requires pos < |source| ==> StopIsRight(source, start, pos, at, end, result)
    ensures CodePoints(source) ==> Converted(Utf32, Utf16, source, start, target, was, from, end, result, pos, at)
  {
    hide Convert, Wrote;
    if CodePoints(source) {
      Stops(Utf32, Utf16, source, start, end - from, pos, out);
      if pos < |source| {
        PointOf(source, pos);
      }
      Ends(Utf32, Utf16, source, start, target, was, from, end, result, pos, at, out);
    }
  }

  lemma AdvancesIf(source: seq<nat>, start: nat, target: array<nat>, was: seq<nat>, from: nat, end: nat,
                   pos: nat, at: nat, out: seq<nat>, ch: nat)
    requires pos < |source| && ch == source[pos] && Scalar(ch) && from <= at < end && |out| == at - from
    requires at + |Encode16(ch)| <= end
    requires CodePoints(source) ==> Going(Utf32, Utf16, source, start, target, was, from, end, pos, at, out)
    ensures CodePoints(source) ==> Underway(Utf32, Utf16, source, start, end - from, pos + 1, out + Encode16(ch))
  {
    hide Convert, Wrote, Encode16;
    if CodePoints(source) {
      Advances(Utf32, Utf16, source, start, end - from, pos, out, ch, 1);
    }
  }
}
