/** The token array that is left when a parse stops half way: the size walks of lists and
    dictionaries end in it, and a dictionary has a value for every key. */
module BdecodeFailure {
  import opened Options
  import opened Numbers
  import opened Grammar
  import opened Bdecode

  predicate OpensItems(t: Token) {
    t.kind == DictToken || t.kind == ListToken
  }

  function StartSlot(kind: Kind): Slot {
    if kind == DictToken then Key else Item
  }

  /** Following the links from j on leads to an end token, with no value missing. */
  predicate Walk(ts: seq<Token>, j: nat, slot: Slot)
    decreases |ts| - j
  {
    && j < |ts|
    && if ts[j].kind == EndToken then slot != Slot.Value
       else ts[j].next > 0 && Walk(ts, j + ts[j].next, NextSlot(slot))
  }

  /** The number of links followed, which is what list_size() counts. */
  function Steps(ts: seq<Token>, j: nat, slot: Slot): nat
    requires Walk(ts, j, slot)
    decreases |ts| - j
  {
    if ts[j].kind == EndToken then 0 else 1 + Steps(ts, j + ts[j].next, NextSlot(slot))
  }

  /** Following the links from j on leads to e, where slot' comes next. */
  predicate WalkTo(ts: seq<Token>, j: nat, slot: Slot, e: nat, slot': Slot)
    decreases e - j
  {
    && j <= e <= |ts|
    && if j == e then slot == slot'
       else
         && ts[j].kind != EndToken && ts[j].next > 0
         && WalkTo(ts, j + ts[j].next, NextSlot(slot), e, slot')
  }

  lemma {:induction false} WalkAppend(ts: seq<Token>, more: seq<Token>, j: nat, slot: Slot)
    requires Walk(ts, j, slot)
    ensures Walk(ts + more, j, slot)
    decreases |ts| - j
  {
    assert (ts + more)[j] == ts[j];
    if ts[j].kind != EndToken {
      WalkAppend(ts, more, j + ts[j].next, NextSlot(slot));
    }
  }

  lemma {:induction false} WalkToAppend(ts: seq<Token>, more: seq<Token>, j: nat, slot: Slot, e: nat, slot': Slot)
    requires WalkTo(ts, j, slot, e, slot')
    ensures WalkTo(ts + more, j, slot, e, slot')
    decreases e - j
  {
    if j < e {
      assert (ts + more)[j] == ts[j];
      WalkToAppend(ts, more, j + ts[j].next, NextSlot(slot), e, slot');
    }
  }

  /** No walk goes through a container whose link was not set yet. */
  lemma {:induction false} WalkPatch(ts: seq<Token>, i: nat, t: Token, j: nat, slot: Slot)
    requires i < |ts| && ts[i].kind != EndToken && ts[i].next == 0 && Walk(ts, j, slot)
    ensures Walk(ts[i := t], j, slot)
    decreases |ts| - j
  {
    assert j != i;
    if ts[j].kind != EndToken {
      WalkPatch(ts, i, t, j + ts[j].next, NextSlot(slot));
    }
  }

  lemma {:induction false} WalkToPatch(ts: seq<Token>, i: nat, t: Token, j: nat, slot: Slot, e: nat, slot': Slot)
    requires i < |ts| && ts[i].kind != EndToken && ts[i].next == 0 && WalkTo(ts, j, slot, e, slot')
    ensures WalkTo(ts[i := t], j, slot, e, slot')
    decreases e - j
  {
    if j < e {
      assert j != i;
      WalkToPatch(ts, i, t, j + ts[j].next, NextSlot(slot), e, slot');
    }
  }

  lemma {:induction false} WalkToEnd(ts: seq<Token>, j: nat, slot: Slot, e: nat, slot': Slot)
    requires WalkTo(ts, j, slot, e, slot') && slot' != Slot.Value
    requires e < |ts| && ts[e].kind == EndToken
    ensures Walk(ts, j, slot)
    decreases e - j
  {
    if j < e {
      WalkToEnd(ts, j + ts[j].next, NextSlot(slot), e, slot');
    }
  }

  lemma {:induction false} WalkToThen(ts: seq<Token>, j: nat, slot: Slot, e: nat, slot': Slot)
    requires WalkTo(ts, j, slot, e, slot')
    requires e < |ts| && ts[e].kind != EndToken && ts[e].next > 0 && e + ts[e].next <= |ts|
    ensures WalkTo(ts, j, slot, e + ts[e].next, NextSlot(slot'))
    decreases e - j
  {
    if j < e {
      WalkToThen(ts, j + ts[j].next, NextSlot(slot), e, slot');
    }
  }

  // ----- what holds while a buffer is parsed -----

  predicate OnStack(stack: seq<Frame>, i: nat) {
    exists k :: 0 <= k < |stack| && stack[k].token == i
  }

  predicate ClosedAt(ts: seq<Token>, i: nat)
    requires i < |ts|
  {
    OpensItems(ts[i]) ==> ts[i].next > 0 && Walk(ts, i + 1, StartSlot(ts[i].kind))
  }

  /** Every container that is not being parsed can be walked. */
  ghost predicate Closed(ts: seq<Token>, stack: seq<Frame>) {
    forall i :: 0 <= i < |ts| && !OnStack(stack, i) ==> ClosedAt(ts, i)
  }

  function FrameSlot(ts: seq<Token>, f: Frame): Slot
    requires f.token < |ts|
  {
    if ts[f.token].kind != DictToken then Item else if f.state == 0 then Key else Slot.Value
  }

  /** The slot the item in progress went into, given the one that comes after it. */
  function Before(slot: Slot): Slot {
    if slot == Key then Slot.Value else slot
  }

  /** The containers being parsed, innermost last. The walk over the innermost one has come
      to e; each of the others to the container inside it, which is not a key. */
  ghost predicate Chain(ts: seq<Token>, stack: seq<Frame>, e: nat, started: bool)
    decreases |stack|
  {
    stack == [] ||
    var f := stack[|stack| - 1];
    && f.token < e <= |ts|
    && OpensItems(ts[f.token]) && ts[f.token].next == 0
    && (started ==> FrameSlot(ts, f) != Slot.Value)
    && WalkTo(ts, f.token + 1, StartSlot(ts[f.token].kind), e,
              if started then Before(FrameSlot(ts, f)) else FrameSlot(ts, f))
    && Chain(ts, stack[..|stack| - 1], f.token, true)
  }

  ghost predicate Parsing(s: State) {
    Closed(s.tokens, s.stack) && Chain(s.tokens, s.stack, |s.tokens|, false)
  }

  lemma {:induction false} ChainAppend(ts: seq<Token>, more: seq<Token>, stack: seq<Frame>, e: nat, started: bool)
    requires Chain(ts, stack, e, started)
    ensures Chain(ts + more, stack, e, started)
    decreases |stack|
  {
    if stack != [] {
      var f := stack[|stack| - 1];
      assert (ts + more)[f.token] == ts[f.token];
      WalkToAppend(ts, more, f.token + 1, StartSlot(ts[f.token].kind), e,
                   if started then Before(FrameSlot(ts, f)) else FrameSlot(ts, f));
      ChainAppend(ts, more, stack[..|stack| - 1], f.token, true);
    }
  }

  /** The tokens of the stack come before e. */
  lemma {:induction false} ChainBefore(ts: seq<Token>, stack: seq<Frame>, e: nat, started: bool, i: nat)
    requires Chain(ts, stack, e, started) && OnStack(stack, i)
    ensures i < e
    decreases |stack|
  {
    var k :| 0 <= k < |stack| && stack[k].token == i;
    var rest := stack[..|stack| - 1];
    if k < |stack| - 1 {
      assert rest[k].token == i;
      ChainBefore(ts, rest, stack[|stack| - 1].token, true, i);
    }
  }

  /** Setting the link of the container on top does not disturb the others. */
  lemma {:induction false} ChainPatch(ts: seq<Token>, i: nat, next: nat, stack: seq<Frame>, e: nat, started: bool)
    requires Chain(ts, stack, e, started) && e <= i < |ts|
    requires ts[i].kind != EndToken && ts[i].next == 0
    ensures Chain(ts[i := ts[i].(next := next)], stack, e, started)
    decreases |stack|
  {
    if stack != [] {
      var f := stack[|stack| - 1];
      WalkToPatch(ts, i, ts[i].(next := next), f.token + 1, StartSlot(ts[f.token].kind), e,
                  if started then Before(FrameSlot(ts, f)) else FrameSlot(ts, f));
      ChainPatch(ts, i, next, stack[..|stack| - 1], f.token, true);
    }
  }

  lemma ClosedAppend(ts: seq<Token>, stack: seq<Frame>, t: Token, stack': seq<Frame>)
    requires Closed(ts, stack)
    requires forall i :: OnStack(stack, i) ==> OnStack(stack', i)
    requires OpensItems(t) ==> OnStack(stack', |ts|)
    ensures Closed(ts + [t], stack')
  {
    var all := ts + [t];
    forall i | 0 <= i < |all| && !OnStack(stack', i)
      ensures ClosedAt(all, i)
    {
      if i < |ts| {
        assert all[i] == ts[i] && ClosedAt(ts, i);
        if OpensItems(ts[i]) {
          WalkAppend(ts, [t], i + 1, StartSlot(ts[i].kind));
        }
      }
    }
  }

  lemma SameTokensOnStack(a: seq<Frame>, b: seq<Frame>, i: nat)
    requires |a| == |b| && forall k :: 0 <= k < |a| ==> a[k].token == b[k].token
    ensures OnStack(a, i) <==> OnStack(b, i)
  {
    if OnStack(a, i) {
      var k :| 0 <= k < |a| && a[k].token == i;
      assert b[k].token == i;
    }
    if OnStack(b, i) {
      var k :| 0 <= k < |b| && b[k].token == i;
      assert a[k].token == i;
    }
  }

  // ----- the steps -----

  /** An integer or a string was read. */
  lemma LeafKeeps(s: State, t: Token, pos: nat)
    requires Parsing(s) && Rooted(s) && t.next == 1 && !OpensItems(t) && t.kind != EndToken
    ensures Parsing(State(pos, s.tokens + [t], Flip(s), s.budget))
  {
    var ts := s.tokens + [t];
    forall i: nat
      ensures OnStack(s.stack, i) <==> OnStack(Flip(s), i)
    {
      SameTokensOnStack(s.stack, Flip(s), i);
    }
    ClosedAppend(s.tokens, s.stack, t, Flip(s));
    if s.stack != [] {
      ChainAppend(s.tokens, [t], s.stack, |s.tokens|, false);
      var f := s.stack[|s.stack| - 1];
      assert ts[f.token] == s.tokens[f.token];
      assert ts[|s.tokens|] == t;
      WalkToThen(ts, f.token + 1, StartSlot(ts[f.token].kind), |s.tokens|, FrameSlot(ts, f));
      assert Flip(s)[..|s.stack| - 1] == s.stack[..|s.stack| - 1];
    }
  }

  lemma OpenKeeps(s: State, kind: Kind)
    requires Parsing(s) && Rooted(s) && SlotOf(s) != Key && (kind == DictToken || kind == ListToken)
    ensures Parsing(OpenContainer(s, kind))
  {
    var t := Token(s.pos, 0, kind, 0);
    var ts, flipped := s.tokens + [t], Flip(s);
    var stack := flipped + [Frame(|s.tokens|, 0)];
    forall i: nat | OnStack(s.stack, i)
      ensures OnStack(stack, i)
    {
      var k :| 0 <= k < |s.stack| && s.stack[k].token == i;
      assert stack[k].token == i;
    }
    assert stack[|s.stack|].token == |s.tokens|;
    ClosedAppend(s.tokens, s.stack, t, stack);
    assert stack[..|stack| - 1] == flipped;
    FlippedChain(s, t);
  }

  lemma FlippedChain(s: State, t: Token)
    requires Parsing(s) && Rooted(s) && SlotOf(s) != Key
    ensures Chain(s.tokens + [t], Flip(s), |s.tokens|, true)
  {
    if s.stack != [] {
      var ts := s.tokens + [t];
      ChainAppend(s.tokens, [t], s.stack, |s.tokens|, false);
      var f := s.stack[|s.stack| - 1];
      assert ts[f.token] == s.tokens[f.token];
      assert Flip(s)[..|s.stack| - 1] == s.stack[..|s.stack| - 1];
    }
  }

  /** The container on top is closed: its walk ends at e, and link is where it leads. */
  lemma CloseKeeps(ts: seq<Token>, stack: seq<Frame>, e: nat, slot: Slot, link: nat)
    requires stack != [] && Closed(ts, stack)
    requires var f := stack[|stack| - 1];
      && f.token < e < |ts| && ts[e].kind == EndToken && slot != Slot.Value
      && OpensItems(ts[f.token]) && ts[f.token].next == 0
      && WalkTo(ts, f.token + 1, StartSlot(ts[f.token].kind), e, slot)
    requires link > 0
    ensures var top := stack[|stack| - 1].token;
      Closed(ts[top := ts[top].(next := link)], stack[..|stack| - 1])
  {
    var top, rest := stack[|stack| - 1].token, stack[..|stack| - 1];
    var all := ts[top := ts[top].(next := link)];
    WalkToEnd(ts, top + 1, StartSlot(ts[top].kind), e, slot);
    forall i | 0 <= i < |all| && !OnStack(rest, i)
      ensures ClosedAt(all, i)
    {
      if i == top {
        WalkPatch(ts, top, all[top], top + 1, StartSlot(ts[top].kind));
      } else {
        NotOnWholeStack(stack, i);
        assert ClosedAt(ts, i);
        if OpensItems(ts[i]) {
          WalkPatch(ts, top, all[top], i + 1, StartSlot(ts[i].kind));
        }
      }
    }
  }

  lemma NotOnWholeStack(stack: seq<Frame>, i: nat)
    requires stack != [] && i != stack[|stack| - 1].token
    ensures OnStack(stack, i) ==> OnStack(stack[..|stack| - 1], i)
  {
    if OnStack(stack, i) {
      var k :| 0 <= k < |stack| && stack[k].token == i;
      assert stack[..|stack| - 1][k].token == i;
    }
  }

  lemma EndKeeps(s: State)
    requires Parsing(s) && Rooted(s) && s.stack != [] && SlotOf(s) != Slot.Value
    ensures var ts := s.tokens + [Token(s.pos, 1, EndToken, 0)];
      var top := s.stack[|s.stack| - 1].token;
      Parsing(State(s.pos + 1, ts[top := ts[top].(next := |ts| - top)], s.stack[..|s.stack| - 1], s.budget))
  {
    var t := Token(s.pos, 1, EndToken, 0);
    var ts, f, rest := s.tokens + [t], s.stack[|s.stack| - 1], s.stack[..|s.stack| - 1];
    ChainAppend(s.tokens, [t], s.stack, |s.tokens|, false);
    ClosedAppend(s.tokens, s.stack, t, s.stack);
    CloseKeeps(ts, s.stack, |s.tokens|, FrameSlot(ts, f), |ts| - f.token);
    ChainPatch(ts, f.token, |ts| - f.token, rest, f.token, true);
    ResumeChain(ts[f.token := ts[f.token].(next := |ts| - f.token)], rest, f.token);
  }

  /** The walk over the outer container goes on behind the one that was closed. */
  lemma ResumeChain(ts: seq<Token>, stack: seq<Frame>, e: nat)
    requires Chain(ts, stack, e, true)
    requires e < |ts| && ts[e].kind != EndToken && ts[e].next > 0 && e + ts[e].next == |ts|
    ensures Chain(ts, stack, |ts|, false)
  {
    if stack != [] {
      var f := stack[|stack| - 1];
      WalkToThen(ts, f.token + 1, StartSlot(ts[f.token].kind), e, Before(FrameSlot(ts, f)));
    }
  }

  /** cap is the token limit: there are no more tokens than rounds. */
  ghost predicate Running(buf: string, limit: nat, cap: nat, s: State) {
    && Sane(buf, s) && Parsing(s)
    && |s.tokens| <= s.pos && |s.stack| <= limit && |s.stack| <= |s.tokens|
    && |s.tokens| <= cap && |s.tokens| + s.budget <= cap
  }

  /** What a state must be for the containers on its stack to be closed. */
  ghost predicate Stopped(buf: string, limit: nat, cap: nat, s: State) {
    && Rooted(s) && Parsing(s)
    && |s.tokens| <= |buf| && |s.stack| <= limit && |s.stack| <= |s.tokens| <= cap
  }

  /** A token may be added in this round. */
  predicate HasRoom(cap: nat, s: State) {
    s.budget >= 0 && |s.tokens| + s.budget < cap
  }

  lemma StepKeeps(buf: string, limit: nat, cap: nat, s: State)
    requires Running(buf, limit, cap, s) && |buf| <= MAX_OFFSET
    ensures var p := Step(buf, limit, s);
      && (p.More? ==> Running(buf, limit, cap, p.state))
      && (p.Stop? ==> Stopped(buf, limit, cap, p.outcome.state))
  {
    var s1 := s.(budget := s.budget - 1);
    if s.pos < |buf| && |s.stack| < limit && s.budget > 0 {
      DispatchKeeps(buf, limit, cap, s1);
    }
  }

  lemma DispatchKeeps(buf: string, limit: nat, cap: nat, s: State)
    requires Running(buf, limit, cap, s) && |buf| <= MAX_OFFSET && s.pos < |buf| && |s.stack| < limit && HasRoom(cap, s)
    ensures var p := Dispatch(buf, s);
      && (p.More? ==> Running(buf, limit, cap, p.state))
      && (p.Stop? ==> Stopped(buf, limit, cap, p.outcome.state))
  {
    var t := buf[s.pos];
    if SlotOf(s) == Key && !Numeric(t) && t != 'e' {
    } else if t == 'd' {
      OpenKeeps(s, DictToken);
    } else if t == 'l' {
      OpenKeeps(s, ListToken);
    } else if t == 'i' {
      IntegerKeeps(buf, limit, cap, s);
    } else if t == 'e' {
      CloseStepKeeps(buf, limit, cap, s);
    } else if Numeric(t) {
      StringKeeps(buf, limit, cap, s);
    }
  }

  lemma IntegerKeeps(buf: string, limit: nat, cap: nat, s: State)
    requires Running(buf, limit, cap, s) && HasRoom(cap, s) && s.pos < |buf|
    ensures var p := ReadInteger(buf, s);
      && (p.More? ==> Running(buf, limit, cap, p.state))
      && (p.Stop? ==> Stopped(buf, limit, cap, p.outcome.state))
  {
    var scan := IntegerScan(buf, s.pos + 1);
    if scan.error == None {
      LeafKeeps(s, Token(s.pos, 1, IntegerToken, 0), scan.pos + 1);
    }
  }

  lemma StringKeeps(buf: string, limit: nat, cap: nat, s: State)
    requires Running(buf, limit, cap, s) && HasRoom(cap, s) && s.pos < |buf| && Numeric(buf[s.pos])
    ensures var p := ReadString(buf, s);
      && (p.More? ==> Running(buf, limit, cap, p.state))
      && (p.Stop? ==> Stopped(buf, limit, cap, p.outcome.state))
  {
    var p := ReadString(buf, s);
    if p.More? {
      LeafKeeps(s, p.state.tokens[|s.tokens|], p.state.pos);
    } else if p.outcome.Finished? {
      LeafKeeps(s, p.outcome.state.tokens[|s.tokens|], p.outcome.state.pos);
    }
  }

  lemma CloseStepKeeps(buf: string, limit: nat, cap: nat, s: State)
    requires Running(buf, limit, cap, s) && HasRoom(cap, s) && |buf| <= MAX_OFFSET && s.pos < |buf|
    ensures var p := CloseContainer(s);
      && (p.More? ==> Running(buf, limit, cap, p.state))
      && (p.Stop? ==> Stopped(buf, limit, cap, p.outcome.state))
  {
    if s.stack != [] && SlotOf(s) != Slot.Value {
      EndKeeps(s);
    }
  }

  lemma {:induction false} RunStops(buf: string, limit: nat, cap: nat, s: State)
    requires Running(buf, limit, cap, s) && |buf| <= MAX_OFFSET
    ensures Stopped(buf, limit, cap, Run(buf, limit, s).state)
    decreases s.budget
  {
    StepKeeps(buf, limit, cap, s);
    match Step(buf, limit, s)
    case Stop(_) =>
    case More(next) => RunStops(buf, limit, cap, next);
  }

  // ----- closing what is open -----

  /** Half way through the closing: the walks over the containers still open come to the
      container that was closed last, whose link leads to its own end token. */
  ghost predicate Unwinding(s: State, last: nat) {
    && Rooted(s)
    && Closed(s.tokens, s.stack)
    && Chain(s.tokens, s.stack, last, true)
    && last < |s.tokens| && s.tokens[last].kind != EndToken && s.tokens[last].next > 0
    && last + s.tokens[last].next < |s.tokens|
    && s.tokens[last + s.tokens[last].next].kind == EndToken
    && |s.tokens| + |s.stack| <= MAX_NEXT_ITEM
  }

  lemma EndThenLink(ts: seq<Token>, top: nat, next: nat, end: Token)
    requires top < |ts|
    ensures ts[top := ts[top].(next := next)] + [end] == (ts + [end])[top := (ts + [end])[top].(next := next)]
  {
  }

  /** Closing the container on top of tokens ts, of which the walk comes to e. */
  lemma CloseTop(s: State, ts: seq<Token>, e: nat, slot: Slot)
    requires s.stack != [] && Closed(ts, s.stack) && |ts| + |s.stack| <= MAX_NEXT_ITEM + 1
    requires var f := s.stack[|s.stack| - 1];
      && f.token < e <= |ts| && slot != Slot.Value && (e < |ts| ==> ts[e].kind == EndToken)
      && OpensItems(ts[f.token]) && ts[f.token].next == 0
      && WalkTo(ts, f.token + 1, StartSlot(ts[f.token].kind), e, slot)
      && Chain(ts, s.stack[..|s.stack| - 1], f.token, true)
    requires |ts| <= MAX_NEXT_ITEM
    ensures var top := s.stack[|s.stack| - 1].token;
      var all := ts[top := ts[top].(next := |ts| - top)] + [Token(s.pos, 1, EndToken, 0)];
      var rest := s.stack[..|s.stack| - 1];
      && Closed(all, rest)
      && Chain(all, rest, top, true)
      && all[top].kind != EndToken && all[top].next == |ts| - top > 0
      && all[|ts|].kind == EndToken
  {
    var end := Token(s.pos, 1, EndToken, 0);
    var f, rest := s.stack[|s.stack| - 1], s.stack[..|s.stack| - 1];
    var whole := ts + [end];
    assert whole[f.token] == ts[f.token];
    ClosedAppend(ts, s.stack, end, s.stack);
    WalkToAppend(ts, [end], f.token + 1, StartSlot(ts[f.token].kind), e, slot);
    CloseKeeps(whole, s.stack, e, slot, |ts| - f.token);
    ChainAppend(ts, [end], rest, f.token, true);
    ChainPatch(whole, f.token, |ts| - f.token, rest, f.token, true);
    EndThenLink(ts, f.token, |ts| - f.token, end);
  }

  lemma InnerStep(s: State, last: nat)
    requires Unwinding(s, last) && s.stack != []
    ensures Unwinding(UnwindStep(s), s.stack[|s.stack| - 1].token)
  {
    hide Walk, Closed;
    var f := s.stack[|s.stack| - 1];
    WalkToThen(s.tokens, f.token + 1, StartSlot(s.tokens[f.token].kind), last, Before(FrameSlot(s.tokens, f)));
    CloseTop(s, s.tokens, last + s.tokens[last].next, FrameSlot(s.tokens, f));
    ChainRooted(s.tokens, s.stack[..|s.stack| - 1], f.token);
  }

  lemma {:induction false} ChainRooted(ts: seq<Token>, stack: seq<Frame>, e: nat)
    requires Chain(ts, stack, e, true) && e <= |ts|
    ensures forall i :: 0 <= i < |stack| ==> stack[i].token < |ts|
    decreases |stack|
  {
    if stack != [] {
      ChainRooted(ts, stack[..|stack| - 1], stack[|stack| - 1].token);
      forall i | 0 <= i < |stack|
        ensures stack[i].token < |ts|
      {
        assert i < |stack| - 1 ==> stack[i] == stack[..|stack| - 1][i];
      }
    }
  }

  lemma DummyKeeps(s: State)
    requires Rooted(s) && Parsing(s) && s.stack != [] && SlotOf(s) == Slot.Value
    ensures var ts := s.tokens + Dummy(s.pos);
      var f := s.stack[|s.stack| - 1];
      && Closed(ts, s.stack)
      && ts[f.token] == s.tokens[f.token]
      && WalkTo(ts, f.token + 1, StartSlot(ts[f.token].kind), |ts|, Key)
      && Chain(ts, s.stack[..|s.stack| - 1], f.token, true)
  {
    var d := |s.tokens|;
    var ts, f := s.tokens + Dummy(s.pos), s.stack[|s.stack| - 1];
    assert ts[d] == Token(s.pos, 2, DictToken, 0) && ts[d + 1] == Token(s.pos, 0, EndToken, 0);
    ChainAppend(s.tokens, Dummy(s.pos), s.stack, d, false);
    WalkToThen(ts, f.token + 1, StartSlot(ts[f.token].kind), d, Slot.Value);
    forall i | 0 <= i < |ts| && !OnStack(s.stack, i)
      ensures ClosedAt(ts, i)
    {
      if i < d {
        assert ts[i] == s.tokens[i] && ClosedAt(s.tokens, i);
        if OpensItems(ts[i]) {
          WalkAppend(s.tokens, Dummy(s.pos), i + 1, StartSlot(ts[i].kind));
        }
      } else if i == d {
        assert Walk(ts, d + 1, Key);
      }
    }
  }

  lemma FirstStep(s: State)
    requires Rooted(s) && Parsing(s) && s.stack != [] && |s.tokens| + |s.stack| + 2 <= MAX_NEXT_ITEM
    ensures Unwinding(UnwindStep(s), s.stack[|s.stack| - 1].token)
  {
    var f := s.stack[|s.stack| - 1];
    if SlotOf(s) == Slot.Value {
      DummyKeeps(s);
      CloseTop(s, s.tokens + Dummy(s.pos), |s.tokens| + 2, Key);
    } else {
      CloseTop(s, s.tokens, |s.tokens|, FrameSlot(s.tokens, f));
    }
    ChainRooted(s.tokens, s.stack[..|s.stack| - 1], f.token);
  }

  /** Every container of a token array can be walked. */
  ghost predicate Walkable(ts: seq<Token>) {
    forall i :: 0 <= i < |ts| && OpensItems(ts[i]) ==> Walk(ts, i + 1, StartSlot(ts[i].kind))
  }

  lemma AllClosed(ts: seq<Token>, pos: nat)
    requires Closed(ts, [])
    ensures Walkable(ts + [Token(pos, 0, EndToken, 0)])
  {
    var all := ts + [Token(pos, 0, EndToken, 0)];
    forall i | 0 <= i < |all| && OpensItems(all[i])
      ensures Walk(all, i + 1, StartSlot(all[i].kind))
    {
      assert all[i] == ts[i] && ClosedAt(ts, i);
      WalkAppend(ts, [Token(pos, 0, EndToken, 0)], i + 1, StartSlot(ts[i].kind));
    }
  }

  lemma {:induction false} UnwindInner(s: State, last: nat)
    requires Unwinding(s, last)
    ensures Walkable(Unwind(s))
    decreases |s.stack|
  {
    if s.stack == [] {
      AllClosed(s.tokens, s.pos);
    } else {
      InnerStep(s, last);
      UnwindInner(UnwindStep(s), s.stack[|s.stack| - 1].token);
    }
  }

  lemma UnwindAll(s: State)
    requires Rooted(s) && Parsing(s) && |s.tokens| + |s.stack| + 2 <= MAX_NEXT_ITEM
    ensures Walkable(Unwind(s))
  {
    if s.stack == [] {
      AllClosed(s.tokens, s.pos);
    } else {
      FirstStep(s);
      UnwindInner(UnwindStep(s), s.stack[|s.stack| - 1].token);
    }
  }

  // ----- what a failed parse returns -----

  /** What was read before the failure is kept, but for the links of the containers that were
      open; whatever the closing adds is at the place where the parse stopped. */
  lemma {:induction false} UnwindKeepsTokens(s: State)
    requires Rooted(s)
    ensures |s.tokens| + |s.stack| + 1 <= |Unwind(s)| <= |s.tokens| + 3 * |s.stack| + 1
    ensures forall i :: 0 <= i < |s.tokens| ==> Unwind(s)[i] == s.tokens[i].(next := Unwind(s)[i].next)
    ensures forall i :: 0 <= i < |s.tokens| && !OnStack(s.stack, i) ==> Unwind(s)[i] == s.tokens[i]
    ensures forall i :: |s.tokens| <= i < |Unwind(s)| ==> Unwind(s)[i].offset == s.pos && Unwind(s)[i].header == 0
    ensures Unwind(s)[|Unwind(s)| - 1].kind == EndToken
    decreases |s.stack|
  {
    if s.stack != [] {
      var t := UnwindStep(s);
      UnwindKeepsTokens(t);
      forall i | 0 <= i < |s.tokens| && !OnStack(s.stack, i)
        ensures !OnStack(t.stack, i) && t.tokens[i] == s.tokens[i]
      {
        StillOff(s.stack, i);
      }
    }
  }

  lemma StillOff(stack: seq<Frame>, i: nat)
    requires stack != [] && !OnStack(stack, i)
    ensures !OnStack(stack[..|stack| - 1], i) && stack[|stack| - 1].token != i
  {
    var rest := stack[..|stack| - 1];
    forall k | 0 <= k < |rest|
      ensures rest[k].token != i
    {
      assert stack[k].token != i;
    }
  }

  /** A parse that failed stopped at its error; or, if that is inside of an integer, where
      the integer starts. */
  predicate StoppedAt(buf: string, stop: nat, e: Error, pos: nat) {
    stop == pos || (stop < pos <= |buf| && buf[stop] == 'i' && IntegerScan(buf, stop + 1) == Scan(pos, Some(e)))
  }

  lemma FailedSize(buf: string, depthLimit: nat, tokenLimit: int)
    requires |buf| <= MAX_OFFSET && Decode(buf, depthLimit, tokenLimit).error.Some?
    ensures var d := Decode(buf, depthLimit, tokenLimit); StoppedAt(buf, d.size, d.error.value.0, d.error.value.1)
  {
    hide StoppedAt;
    RunFailsAt(buf, depthLimit, State(0, [], [], tokenLimit));
  }

  lemma {:induction false} RunFailsAt(buf: string, limit: nat, s: State)
    requires Sane(buf, s)
    ensures var r := Run(buf, limit, s); r.Failed? ==> StoppedAt(buf, r.state.pos, r.error, r.errorPos)
    decreases s.budget
  {
    hide StoppedAt, Step;
    StepFailsAt(buf, limit, s);
    match Step(buf, limit, s)
    case Stop(_) =>
    case More(next) => RunFailsAt(buf, limit, next);
  }

  lemma StepFailsAt(buf: string, limit: nat, s: State)
    requires Sane(buf, s)
    ensures var r := Step(buf, limit, s);
      r.Stop? && r.outcome.Failed? ==> StoppedAt(buf, r.outcome.state.pos, r.outcome.error, r.outcome.errorPos)
  {
    hide DigitRun, ParseFrom;
  }

  /** No decoding has more tokens than this, and no stack is higher than the second. */
  function TokenBound(buf: string, tokenLimit: int): nat {
    if tokenLimit < 0 then 0 else if tokenLimit < |buf| then tokenLimit else |buf|
  }

  function StackBound(buf: string, depthLimit: nat, tokenLimit: int): nat {
    var t := TokenBound(buf, tokenLimit);
    if depthLimit < t then depthLimit else t
  }

  /** Whatever the buffer holds and however far the parse comes, every list and dictionary
      of the token array can be walked to an end token, and every key has a value, as long
      as no link can exceed its 29 bits. The limits a caller sets see to that, and so does
      a buffer of less than a quarter of a gigabyte. */
  lemma EveryDecodedTreeIsWalkable(buf: string, depthLimit: nat, tokenLimit: int)
    requires |buf| > MAX_OFFSET
      || TokenBound(buf, tokenLimit) + StackBound(buf, depthLimit, tokenLimit) + 2 <= MAX_NEXT_ITEM
    ensures Walkable(Decode(buf, depthLimit, tokenLimit).tokens)
  {
    if |buf| <= MAX_OFFSET {
      var s := State(0, [], [], tokenLimit);
      RunStops(buf, depthLimit, if tokenLimit < 0 then 0 else tokenLimit, s);
      UnwindAll(Run(buf, depthLimit, s).state);
    }
  }

  /** A walk that has no value missing takes an even number of steps in a dictionary. */
  lemma {:induction false} DictionariesHaveEvenSize(ts: seq<Token>, j: nat, slot: Slot)
    requires Walk(ts, j, slot) && slot != Item
    ensures Steps(ts, j, slot) % 2 == if slot == Key then 0 else 1
    decreases |ts| - j
  {
    if ts[j].kind != EndToken {
      DictionariesHaveEvenSize(ts, j + ts[j].next, NextSlot(slot));
    }
  }

  /** The walk of list_size() and dict_size() on any container of a decoded array. */
  method CountSteps(ts: seq<Token>, i: nat) returns (n: nat)
    requires Walkable(ts) && i < |ts| && OpensItems(ts[i])
    ensures Walk(ts, i + 1, StartSlot(ts[i].kind)) && n == Steps(ts, i + 1, StartSlot(ts[i].kind))
    ensures ts[i].kind == DictToken ==> n % 2 == 0
  {
    var token := i + 1;
    ghost var slot := StartSlot(ts[i].kind);
    n := 0;
    if ts[i].kind == DictToken {
      DictionariesHaveEvenSize(ts, i + 1, Key);
    }
    while ts[token].kind != EndToken
      invariant Walk(ts, token, slot)
      invariant n + Steps(ts, token, slot) == Steps(ts, i + 1, StartSlot(ts[i].kind))
      decreases |ts| - token
    {
      slot := NextSlot(slot);
      token := token + ts[token].next;
      n := n + 1;
    }
  }
}
