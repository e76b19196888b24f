/** The imperative form of bdecode(): a loop over the buffer with an explicit stack,
    appending to the token vector and patching the tokens of containers in place. It
    computes Bdecode.Decode. */
module BdecodeParser {
  import opened Options
  import opened Numbers
  import opened Grammar
  import opened Bdecode

  /** What a round of the loop asks for. */
  datatype Verdict = Proceed | Done | Error(error: Error, pos: nat)

  class Parser {
    const buf: string
    const stack: array<Frame>
    var sp: nat
    var start: nat
    var tokens: seq<Token>
    var tokenLimit: int

    constructor (buf: string, depthLimit: nat, tokenLimit: int)
      ensures this.buf == buf && stack.Length == depthLimit && fresh(stack)
      ensures Valid() && View() == State(0, [], [], tokenLimit)
    {
      this.buf := buf;
      this.stack := new Frame[depthLimit](_ => Frame(0, 0));
      sp, start, tokens := 0, 0, [];
      this.tokenLimit := tokenLimit;
    }

    ghost function View(): State
      requires sp <= stack.Length
      reads this, stack
    {
      State(start, tokens, stack[..sp], tokenLimit)
    }

    ghost predicate Valid()
      reads this, stack
    {
      sp <= stack.Length && Sane(buf, View())
    }

    method InDict() returns (dict: bool)
      requires Valid()
      ensures dict <==> SlotOf(View()) != Item
    {
      dict := sp > 0 && tokens[stack[sp - 1].token].kind == DictToken;
    }

    method PushContainer(kind: Kind)
      requires Valid() && start < |buf| && sp < stack.Length
      modifies this`sp, this`start, this`tokens, stack
      ensures Valid()
      ensures View() == old(State(start + 1, tokens + [Token(start, 0, kind, 0)],
                                  stack[..sp] + [Frame(|tokens|, 0)], tokenLimit))
    {
      stack[sp] := Frame(|tokens|, 0);
      sp := sp + 1;
      tokens := tokens + [Token(start, 0, kind, 0)];
      start := start + 1;
    }

    method PushInteger() returns (v: Verdict)
      requires Valid() && start < |buf|
      modifies this`start, this`tokens
      ensures Valid()
      ensures var scan := IntegerScan(buf, old(start) + 1);
        match scan.error
        case Some(e) => v == Verdict.Error(e, scan.pos) && View() == old(View())
        case None => v == Proceed && View() == old(View()).(pos := scan.pos + 1,
            tokens := old(tokens) + [Token(old(start), 1, IntegerToken, 0)])
    {
      var stop, e := CheckInteger(buf, start + 1);
      if e.Some? {
        return Verdict.Error(e.value, stop);
      }
      tokens := tokens + [Token(start, 1, IntegerToken, 0)];
      start := stop + 1;
      return Proceed;
    }

    method PopContainer() returns (v: Verdict)
      requires Valid() && start < |buf| && buf[start] == 'e'
      modifies this`sp, this`start, this`tokens
      ensures Valid()
      ensures match CloseContainer(old(View()))
        case Stop(Failed(s, e, pos)) => v == Verdict.Error(e, pos) && View() == s
        case Stop(Finished(s)) => v == Proceed && View() == s
        case More(s) => v == Proceed && View() == s && sp > 0
      ensures v == Proceed ==> sp == old(sp) - 1
    {
      if sp == 0 {
        return Verdict.Error(UnexpectedEof, start);
      }
      var dict := InDict();
      if dict && stack[sp - 1].state != 0 {
        return Verdict.Error(ExpectedValue, start);
      }
      tokens := tokens + [Token(start, 1, EndToken, 0)];
      var top := stack[sp - 1].token;
      if |tokens| - top > MAX_NEXT_ITEM {
        return Verdict.Error(LimitExceeded, start);
      }
      tokens := tokens[top := tokens[top].(next := |tokens| - top)];
      sp := sp - 1;
      start := start + 1;
      assert stack[..sp] == old(stack[..sp])[..sp];
      return Proceed;
    }

    method PushString() returns (v: Verdict)
      requires Valid() && start < |buf| && Numeric(buf[start])
      modifies this`start, this`tokens
      ensures Valid()
      ensures match ReadString(buf, old(View()))
        case Stop(Failed(s, e, pos)) => v == Verdict.Error(e, pos) && View() == s
        case Stop(Finished(s)) => v == Proceed && View() == s
        case More(s) => v == Proceed && View() == s.(stack := old(View()).stack)
    {
      var len: int, strStart := DigitOf(buf[start]), start;
      start := start + 1;
      if start >= |buf| {
        return Verdict.Error(UnexpectedEof, start);
      }
      var e: Option<Numbers.Error>;
      len, start, e := ParseInt(buf, start, |buf|, ':', len);
      if e.Some? {
        return Verdict.Error(e.value, start);
      }
      if start == |buf| {
        return Verdict.Error(ExpectedColon, start);
      }
      if len > |buf| - start - 1 {
        return Verdict.Error(UnexpectedEof, start);
      }
      start := start + 1;
      if start - strStart - 2 > MAX_HEADER {
        return Verdict.Error(LimitExceeded, start);
      }
      tokens := tokens + [Token(strStart, 1, StringToken, start - strStart - 2)];
      start := start + len;
      return Proceed;
    }
  
    /** After an item of a container was started: a dictionary expects the other of key
        and value next. frame is the container's place on the stack. */
    method FlipState(frame: nat)
      requires Valid() && frame < stack.Length && stack[frame].token < |tokens|
      modifies stack
      ensures Valid()
      ensures forall i :: 0 <= i < stack.Length && i != frame ==> stack[i] == old(stack[i])
      ensures stack[frame].token == old(stack[frame].token)
      ensures stack[frame].state ==
        if tokens[stack[frame].token].kind == DictToken then if old(stack[frame].state) == 0 then 1 else 0
        else old(stack[frame].state)
    {
      if tokens[stack[frame].token].kind == DictToken {
        stack[frame] := stack[frame].(state := if stack[frame].state == 0 then 1 else 0);
      }
    }

    /** The switch on the next character. */
    method ReadToken() returns (v: Verdict)
      requires Valid() && start < |buf| && sp < stack.Length
      modifies this`sp, this`start, this`tokens, stack
      ensures Valid()
      ensures Unflipped(Dispatch(buf, old(View())), old(View()), View(), v)
      ensures v == Proceed ==> old(sp) <= sp + 1
      ensures v == Proceed && old(sp) > 0 ==>
        stack[old(sp) - 1].token < |tokens| && stack[old(sp) - 1] == old(stack[sp - 1])
    {
      var t := buf[start];
      var dict := InDict();
      if dict && stack[sp - 1].state == 0 && !Numeric(t) && t != 'e' {
        return Verdict.Error(ExpectedDigit, start);
      }
      if t == 'd' {
        PushContainer(DictToken);
        v := Proceed;
      } else if t == 'l' {
        PushContainer(ListToken);
        v := Proceed;
      } else if t == 'i' {
        v := PushInteger();
      } else if t == 'e' {
        v := PopContainer();
      } else if !Numeric(t) {
        return Verdict.Error(ExpectedValue, start);
      } else {
        v := PushString();
      }
    }

    /** One round of the parse loop. */
    method Round() returns (v: Verdict)
      requires Valid()
      modifies this, stack
      ensures Valid()
      ensures match Step(buf, stack.Length, old(View()))
        case Stop(Failed(s, e, pos)) => v == Verdict.Error(e, pos) && View() == s
        case Stop(Finished(s)) => v == Done && View() == s
        case More(s) => v == Proceed && View() == s
    {
      hide Dispatch, Unwind, Run;
      if start >= |buf| {
        return Verdict.Error(UnexpectedEof, start);
      }
      if sp >= stack.Length {
        return Verdict.Error(DepthExceeded, start);
      }
      tokenLimit := tokenLimit - 1;
      if tokenLimit < 0 {
        return Verdict.Error(LimitExceeded, start);
      }
      ghost var before := View();
      var currentFrame := sp;
      v := ReadToken();
      if v.Error? {
        return;
      }
      ghost var middle := View();
      if currentFrame > 0 {
        FlipState(currentFrame - 1);
      }
      assert sp == |middle.stack|;
      DispatchGrows(buf, before);
      FlippedStack(Dispatch(buf, before), before, middle, View());
      if sp == 0 {
        return Done;
      }
    }

    /** Closes the containers a failed parse left open, and ends the token vector. */
    method CloseOpenContainers()
      requires Valid()
      modifies this`sp, this`tokens
      ensures tokens == Unwind(old(View()))
      ensures start == old(start)
    {
      while sp > 0
        invariant Valid() && Unwind(View()) == Unwind(old(View()))
      {
        ghost var before := View();
        sp := sp - 1;
        if tokens[stack[sp].token].kind == DictToken && stack[sp].state != 0 {
          tokens := tokens + [Token(start, 2, DictToken, 0)];
          tokens := tokens + [Token(start, 0, EndToken, 0)];
        }
        var top := stack[sp].token;
        tokens := tokens[top := tokens[top].(next := (|tokens| - top) % (MAX_NEXT_ITEM + 1))];
        tokens := tokens + [Token(start, 1, EndToken, 0)];
        UnwindOne(before, View());
      }
      tokens := tokens + [Token(start, 0, EndToken, 0)];
    }
  }

  lemma UnwindOne(s: State, s': State)
    requires Rooted(s) && s.stack != []
    requires s'.stack == s.stack[..|s.stack| - 1] && s'.pos == s.pos && s'.budget == s.budget
    requires var filled := if SlotOf(s) == Slot.Value then s.tokens + [Token(s.pos, 2, DictToken, 0)] + [Token(s.pos, 0, EndToken, 0)] else s.tokens;
      var top := s.stack[|s.stack| - 1].token;
      s'.tokens == filled[top := filled[top].(next := (|filled| - top) % (MAX_NEXT_ITEM + 1))] + [Token(s.pos, 1, EndToken, 0)]
    ensures s' == UnwindStep(s)
  {
    hide Run, Unwind;
    assert s.tokens + [Token(s.pos, 2, DictToken, 0)] + [Token(s.pos, 0, EndToken, 0)] == s.tokens + Dummy(s.pos);
  }

  /** A step keeps the tokens before it or closes a container. */
  lemma DispatchGrows(buf: string, s: State)
    requires Sane(buf, s) && s.pos < |buf|
    ensures var p := Dispatch(buf, s);
      && (p.More? ==> s.tokens <= p.state.tokens || |p.state.stack| < |s.stack|)
      && (p.Stop? && p.outcome.Finished? ==>
            s.tokens <= p.outcome.state.tokens || |p.outcome.state.stack| < |s.stack|)
  {
    hide Run, Unwind;
  }

  /** Flipping the frame that was on top when the round began completes the round. */
  lemma FlippedStack(p: Progress, s: State, s': State, s'': State)
    requires Rooted(s) && Unflipped(p, s, s', Proceed)
    requires s''.pos == s'.pos && s''.tokens == s'.tokens && s''.budget == s'.budget
    requires |s''.stack| == |s'.stack|
    requires forall i :: 0 <= i < |s'.stack| && i != |s.stack| - 1 ==> s''.stack[i] == s'.stack[i]
    requires s.tokens <= s'.tokens || |s'.stack| < |s.stack|
    requires s.stack != [] && |s.stack| <= |s'.stack| ==>
      s''.stack[|s.stack| - 1] == Flip(s)[|s.stack| - 1]
    ensures p == Parsed(s'')
  {
  }

  /** s' is the state p leads to, except that the container around the item just started
      has not been flipped yet. */
  ghost predicate Unflipped(p: Progress, s: State, s': State, v: Verdict)
    requires TopIsSane(s)
  {
    match p
    case Stop(Failed(f, e, pos)) => v == Verdict.Error(e, pos) && s' == f
    case Stop(Finished(f)) => v == Proceed && s' == f && s'.stack == []
    case More(f) =>
      && v == Proceed && s'.stack != [] && s' == f.(stack := s'.stack)
      && ((s'.stack == s.stack && f.stack == Flip(s))
          || (|s'.stack| == |s.stack| + 1 && s'.stack[..|s.stack|] == s.stack && f.stack == Flip(s) + s'.stack[|s.stack|..])
          || (|s'.stack| + 1 == |s.stack| && f.stack == s'.stack))
  }

  /** The whole of bdecode(). */
  method Decode(buf: string, depthLimit: nat, tokenLimit: int) returns (r: Decoded)
    ensures r == Bdecode.Decode(buf, depthLimit, tokenLimit)
  {
    if |buf| > MAX_OFFSET {
      return Decoded([], 0, Some((LimitExceeded, 0)));
    }
    var p := new Parser(buf, depthLimit, tokenLimit);
    ghost var outcome := Run(buf, depthLimit, p.View());
    var v := Proceed;
    while v == Proceed
      invariant p.Valid() && p.buf == buf && p.stack.Length == depthLimit && fresh(p) && fresh(p.stack)
      invariant match v
        case Proceed => Run(buf, depthLimit, p.View()) == outcome
        case Done => Finished(p.View()) == outcome
        case Error(e, pos) => Failed(p.View(), e, pos) == outcome
      decreases v == Proceed, p.tokenLimit
    {
      v := p.Round();
    }
    p.CloseOpenContainers();
    r := Decoded(p.tokens, p.start, if v.Error? then Some((v.error, v.pos)) else None);
  }
}
