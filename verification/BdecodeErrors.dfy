/** What the errors of bdecode() mean for the buffer: what is at the place an error is
    reported for. */
module BdecodeErrors {
  import opened Options
  import opened Picking
  import opened Numbers
  import opened Grammar
  import opened Bdecode
  import opened BdecodeReference

  /** No item starts with this character; an e only ends a container. */
  predicate StartsNoItem(c: char) {
    c != 'd' && c != 'l' && c != 'i' && !Numeric(c)
  }

  /** There are digits between these places, and their number is more than bound. */
  predicate Exceeds(buf: string, start: nat, end: nat, bound: int) {
    start < end <= |buf| && AllNumeric(buf[start..end]) && Numbers.Value(buf[start..end]) > bound
  }

  ghost predicate NumberBefore(buf: string, end: nat, bound: int) {
    exists start :: Exceeds(buf, start, end, bound)
  }

  /** The length prefix of a string ends here, and the rest of the buffer is shorter. */
  ghost predicate CutShort(buf: string, pos: nat) {
    pos < |buf| && buf[pos] == ':' && NumberBefore(buf, pos, |buf| - pos - 1)
  }

  /** The digits up to here are a number that does not fit 63 bits. */
  ghost predicate TooBig(buf: string, pos: nat) {
    pos < |buf| && NumberBefore(buf, pos + 1, INT64_MAX)
  }

  /** There are more than twenty digits before this place. */
  predicate TooLong(buf: string, pos: nat) {
    20 < pos <= |buf| && AllNumeric(buf[pos - 21..pos])
  }

  /** Behind a length prefix of more than eight digits. */
  predicate LongPrefix(buf: string, pos: nat) {
    10 <= pos <= |buf| && buf[pos - 1] == ':' && AllNumeric(buf[pos - 10..pos - 1])
  }

  /** This many containers were opened before this place. */
  ghost predicate Nested(buf: string, pos: nat, depth: nat, open: seq<nat>) {
    && pos <= |buf| && Places(open, pos) && |open| == depth
    && forall m :: 0 <= m < |open| ==> buf[open[m]] == 'l' || buf[open[m]] == 'd'
  }

  ghost predicate Means(buf: string, f: Fault, limit: nat, tokenLimit: int) {
    f.pos <= |buf| &&
    match f.error
    case UnexpectedEof => f.pos == |buf| || CutShort(buf, f.pos) || (f.pos == 0 && buf[0] == 'e')
    case ExpectedValue => f.pos < |buf| && StartsNoItem(buf[f.pos])
    case ExpectedDigit => f.pos < |buf| && !Numeric(buf[f.pos])
    case ExpectedColon => 0 < f.pos == |buf| && Numeric(buf[f.pos - 1])
    case DepthExceeded => f.pos < |buf| && exists open :: Nested(buf, f.pos, limit, open)
    case LimitExceeded => tokenLimit <= f.pos || LongPrefix(buf, f.pos)
    case Overflow => TooLong(buf, f.pos) || TooBig(buf, f.pos)
  }

  /** Where parse_int() stops with an error. */
  lemma {:induction false} ParseStops(s: string, start: nat, end: nat, delimiter: char, before: string)
    requires start <= end <= |s| && AllNumeric(before) && Numbers.Value(before) <= INT64_MAX
    requires ParseFrom(s, start, end, delimiter, Numbers.Value(before)).error.Some?
    ensures var p := ParseFrom(s, start, end, delimiter, Numbers.Value(before));
      && p.pos < end && AllNumeric(before + s[start..p.pos])
      && (p.error == Some(ExpectedDigit) ==> !Numeric(s[p.pos]) && s[p.pos] != delimiter)
      && (p.error != Some(ExpectedDigit) ==>
            p.error == Some(Overflow) && AllNumeric(before + s[start..p.pos + 1]) && Numbers.Value(before + s[start..p.pos + 1]) > INT64_MAX)
    decreases end - start
  {
    hide Numbers.Value;
    assert before + s[start..start] == before;
    if Numeric(s[start]) {
      ValueConcat(before, s[start]);
      assert before + s[start..start + 1] == before + [s[start]];
      if Numbers.Value(before + [s[start]]) <= INT64_MAX {
        StepsOn(s, start, end, delimiter, Numbers.Value(before));
        ParseStops(s, start + 1, end, delimiter, before + [s[start]]);
        var p := ParseFrom(s, start, end, delimiter, Numbers.Value(before));
        assert before + s[start..p.pos] == before + [s[start]] + s[start + 1..p.pos];
        assert before + s[start..p.pos + 1] == before + [s[start]] + s[start + 1..p.pos + 1];
      }
    }
  }

  lemma StepsOn(s: string, start: nat, end: nat, delimiter: char, val: int)
    requires start < end <= |s| && Numeric(s[start]) && s[start] != delimiter
    requires val * 10 + DigitOf(s[start]) <= INT64_MAX
    ensures ParseFrom(s, start, end, delimiter, val)
      == ParseFrom(s, start + 1, end, delimiter, val * 10 + DigitOf(s[start]))
  {
  }

  lemma StrMeans(buf: string, pos: nat, limit: nat, tokenLimit: int)
    requires pos < |buf| && Numeric(buf[pos]) && ParseStr(buf, pos) == None
    ensures Means(buf, StrFault(buf, pos), limit, tokenLimit)
  {
    hide Numbers.Value, ParseFrom;
    var p := ParseFrom(buf, pos + 1, |buf|, ':', DigitOf(buf[pos]));
    if pos + 1 < |buf| {
      if p.error.Some? {
        PrefixStops(buf, pos);
      } else {
        PrefixSound(buf, pos);
        PrefixMeans(buf, pos, p);
      }
    }
  }

  lemma PrefixStops(buf: string, pos: nat)
    requires pos < |buf| && Numeric(buf[pos])
    requires ParseFrom(buf, pos + 1, |buf|, ':', DigitOf(buf[pos])).error.Some?
    ensures var p := ParseFrom(buf, pos + 1, |buf|, ':', DigitOf(buf[pos]));
      && p.pos < |buf|
      && (p.error == Some(ExpectedDigit) || p.error == Some(Overflow))
      && (p.error == Some(ExpectedDigit) ==> !Numeric(buf[p.pos]))
      && (p.error == Some(Overflow) ==> TooBig(buf, p.pos))
  {
    var first := buf[pos..pos + 1];
    assert first[..0] == "";
    ParseStops(buf, pos + 1, |buf|, ':', first);
    var p := ParseFrom(buf, pos + 1, |buf|, ':', DigitOf(buf[pos]));
    assert first + buf[pos + 1..p.pos + 1] == buf[pos..p.pos + 1];
    assert p.error == Some(Overflow) ==> Exceeds(buf, pos, p.pos + 1, INT64_MAX);
  }

  lemma PrefixMeans(buf: string, pos: nat, p: Parse)
    requires pos < p.pos <= |buf| && AllNumeric(buf[pos..p.pos]) && p.val == Numbers.Value(buf[pos..p.pos])
    ensures Numeric(buf[p.pos - 1])
    ensures p.pos < |buf| && buf[p.pos] == ':' && p.val > |buf| - p.pos - 1 ==> CutShort(buf, p.pos)
    ensures p.pos < |buf| && buf[p.pos] == ':' && p.pos - pos > MAX_HEADER + 1 ==> LongPrefix(buf, p.pos + 1)
  {
    hide Numbers.Value;
    assert buf[pos..p.pos][p.pos - 1 - pos] == buf[p.pos - 1];
    assert p.val > |buf| - p.pos - 1 ==> Exceeds(buf, pos, p.pos, |buf| - p.pos - 1);
    forall i | pos <= i < p.pos
      ensures Numeric(buf[i])
    {
      assert buf[pos..p.pos][i - pos] == buf[i];
    }
  }

  lemma IntegerMeans(buf: string, pos: nat, limit: nat, tokenLimit: int)
    requires pos < |buf| && IntegerScan(buf, pos + 1).error.Some?
    ensures var scan := IntegerScan(buf, pos + 1); Means(buf, Fault(scan.error.value, scan.pos), limit, tokenLimit)
  {
    hide DigitRun;
  }

  lemma LimitMeans(buf: string, pos: nat, depth: nat, limit: nat, budget: int, tokenLimit: int, open: seq<nat>)
    requires Nested(buf, pos, depth, open) && depth <= limit && tokenLimit - budget <= pos
    requires AtLimit(buf, pos, depth, limit, budget)
    ensures Means(buf, LimitFault(buf, pos, depth, limit), limit, tokenLimit)
  {
  }

  lemma Deeper(buf: string, pos: nat, depth: nat, open: seq<nat>)
    requires Nested(buf, pos, depth, open) && pos < |buf| && (buf[pos] == 'l' || buf[pos] == 'd')
    ensures Nested(buf, pos + 1, depth + 1, open + [pos])
  {
  }

  lemma Further(buf: string, pos: nat, pos': nat, depth: nat, open: seq<nat>)
    requires Nested(buf, pos, depth, open) && pos <= pos' <= |buf|
    ensures Nested(buf, pos', depth, open)
  {
  }

  lemma {:induction false} NodeMeans(buf: string, pos: nat, depth: nat, limit: nat, budget: int, tokenLimit: int, open: seq<nat>)
    requires Nested(buf, pos, depth, open) && depth <= limit && tokenLimit - budget <= pos
    requires ParseNode(buf, pos, depth, limit, budget) == None
    requires pos < |buf| && buf[pos] == 'e' ==> pos == 0
    ensures Means(buf, NodeFault(buf, pos, depth, limit, budget), limit, tokenLimit)
    decreases budget, 0
  {
    hide Means, Nested, IntegerScan, ParseStr, StrFault, ParseItems;
    NestedIn(buf, pos, depth, open);
    if AtLimit(buf, pos, depth, limit, budget) {
      LimitMeans(buf, pos, depth, limit, budget, tokenLimit, open);
    } else if buf[pos] == 'i' {
      IntegerMeans(buf, pos, limit, tokenLimit);
    } else if buf[pos] == 'l' || buf[pos] == 'd' {
      Deeper(buf, pos, depth, open);
      ItemsMean(buf, pos + 1, depth + 1, limit, budget - 1, tokenLimit, open + [pos], if buf[pos] == 'l' then Item else Key);
    } else if Numeric(buf[pos]) {
      StrMeans(buf, pos, limit, tokenLimit);
    } else {
      NothingStarts(buf, pos, limit, tokenLimit);
    }
  }

  lemma NestedIn(buf: string, pos: nat, depth: nat, open: seq<nat>)
    requires Nested(buf, pos, depth, open)
    ensures pos <= |buf|
  {
  }

  lemma NothingStarts(buf: string, pos: nat, limit: nat, tokenLimit: int)
    requires pos < |buf| && StartsNoItem(buf[pos])
    ensures Means(buf, Fault(ExpectedValue, pos), limit, tokenLimit)
    ensures pos == 0 && buf[pos] == 'e' ==> Means(buf, Fault(UnexpectedEof, pos), limit, tokenLimit)
  {
  }

  lemma NoKey(buf: string, pos: nat, limit: nat, tokenLimit: int)
    requires pos < |buf| && !Numeric(buf[pos])
    ensures Means(buf, Fault(ExpectedDigit, pos), limit, tokenLimit)
  {
  }

  lemma {:induction false} ItemsMean(buf: string, pos: nat, depth: nat, limit: nat, budget: int, tokenLimit: int,
                                     open: seq<nat>, slot: Slot)
    requires Nested(buf, pos, depth, open) && depth <= limit && tokenLimit - budget <= pos
    requires ParseItems(buf, pos, depth, limit, budget, slot) == None
    ensures Means(buf, ItemsFault(buf, pos, depth, limit, budget, slot), limit, tokenLimit)
    decreases budget, 1
  {
    hide Means, Nested, NodeFault, Print, ParseNode;
    NestedIn(buf, pos, depth, open);
    if AtLimit(buf, pos, depth, limit, budget) {
      LimitMeans(buf, pos, depth, limit, budget, tokenLimit, open);
    } else if buf[pos] == 'e' {
      NothingStarts(buf, pos, limit, tokenLimit);
    } else if slot == Key && !Numeric(buf[pos]) {
      NoKey(buf, pos, limit, tokenLimit);
    } else {
      match ParseNode(buf, pos, depth, limit, budget)
      case None => NodeMeans(buf, pos, depth, limit, budget, tokenLimit, open);
      case Some(n) =>
        NodeSound(buf, pos, depth, limit, budget);
        CountIsAtMostLength(n);
        Further(buf, pos, pos + |Print(n)|, depth, open);
        RestFails(buf, pos, depth, limit, budget, slot, n);
        ItemsMean(buf, pos + |Print(n)|, depth, limit, budget - Count(n), tokenLimit, open, NextSlot(slot));
    }
  }

  /** Whatever a failed call reports is what is at that place of the buffer. */
  lemma ErrorsMean(buf: string, depthLimit: nat, tokenLimit: int)
    requires |buf| <= MAX_OFFSET && Decode(buf, depthLimit, tokenLimit).error.Some?
    ensures var (e, pos) := Decode(buf, depthLimit, tokenLimit).error.value;
      Means(buf, Fault(e, pos), depthLimit, tokenLimit)
  {
    hide Means, NodeFault, ParseNode, Run;
    match ParseNode(buf, 0, 0, depthLimit, tokenLimit)
    case None =>
      DecodeFailsWith(buf, depthLimit, tokenLimit);
      NothingOpen(buf);
      NodeMeans(buf, 0, 0, depthLimit, tokenLimit, tokenLimit, []);
    case Some(n) =>
      NodeSound(buf, 0, 0, depthLimit, tokenLimit);
      DecodesTree(buf, n, depthLimit, tokenLimit);
  }

  lemma NothingOpen(buf: string)
    ensures Nested(buf, 0, 0, [])
  {
  }
}
