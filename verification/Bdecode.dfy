/** bdecode(): the one-pass stack parser that turns a buffer into a flat token array. */
module Bdecode {
  import opened Options
  import opened Numbers
  import opened Grammar

  /** A container being parsed: the index of its token, and for a dictionary whether a
      key (0) or a value (1) comes next. */
  datatype Frame = Frame(token: nat, state: nat)

  /** budget is what is left of the token limit. */
  datatype State = State(pos: nat, tokens: seq<Token>, stack: seq<Frame>, budget: int)

  datatype Outcome =
    | Finished(state: State)
    | Failed(state: State, error: Error, errorPos: nat)

  datatype Progress = More(state: State) | Stop(outcome: Outcome)

  /** Every frame of the stack has a token. */
  predicate Rooted(s: State) {
    forall i :: 0 <= i < |s.stack| ==> s.stack[i].token < |s.tokens|
  }

  predicate Sane(buf: string, s: State) {
    s.pos <= |buf| && Rooted(s)
  }

  predicate TopIsSane(s: State) {
    s.stack != [] ==> s.stack[|s.stack| - 1].token < |s.tokens|
  }

  /** What the innermost container expects; Item outside of any container. */
  function SlotOf(s: State): Slot
    requires TopIsSane(s)
  {
    if s.stack == [] then Item
    else
      var top := s.stack[|s.stack| - 1];
      if s.tokens[top.token].kind == DictToken
      then if top.state == 0 then Key else Slot.Value
      else Item
  }

  /** The stack once an item of the innermost container has been started. */
  function Flip(s: State): (r: seq<Frame>)
    requires TopIsSane(s)
    ensures |r| == |s.stack|
    ensures forall i :: 0 <= i < |r| ==> r[i].token == s.stack[i].token
    ensures forall i :: 0 <= i < |r| - 1 ==> r[i] == s.stack[i]
  {
    if SlotOf(s) == Item then s.stack
    else
      var top := s.stack[|s.stack| - 1];
      s.stack[..|s.stack| - 1] + [Frame(top.token, if top.state == 0 then 1 else 0)]
  }

  function Fail(s: State, error: Error): Progress {
    Stop(Failed(s, error, s.pos))
  }

  /** An item was parsed: outside of any container the parse is complete. */
  function Parsed(s: State): Progress {
    if s.stack == [] then Stop(Finished(s)) else More(s)
  }

  function OpenContainer(s: State, kind: Kind): State
    requires TopIsSane(s)
  {
    State(s.pos + 1, s.tokens + [Token(s.pos, 0, kind, 0)], Flip(s) + [Frame(|s.tokens|, 0)], s.budget)
  }

  function CloseContainer(s: State): Progress
    requires TopIsSane(s)
  {
    if s.stack == [] then Fail(s, UnexpectedEof)
    else if SlotOf(s) == Slot.Value then Fail(s, ExpectedValue)
    else
      var tokens := s.tokens + [Token(s.pos, 1, EndToken, 0)];
      var top := s.stack[|s.stack| - 1].token;
      var popped := s.stack[..|s.stack| - 1];
      if |tokens| - top > MAX_NEXT_ITEM then Fail(s.(tokens := tokens), LimitExceeded)
      else Parsed(State(s.pos + 1, tokens[top := tokens[top].(next := |tokens| - top)], popped, s.budget))
  }

  function ReadInteger(buf: string, s: State): Progress
    requires TopIsSane(s) && s.pos < |buf|
  {
    var scan := IntegerScan(buf, s.pos + 1);
    match scan.error
    case Some(e) => Stop(Failed(s, e, scan.pos))
    case None =>
      Parsed(State(scan.pos + 1, s.tokens + [Token(s.pos, 1, IntegerToken, 0)], Flip(s), s.budget))
  }

  function ReadString(buf: string, s: State): Progress
    requires TopIsSane(s) && s.pos < |buf| && Numeric(buf[s.pos])
  {
    if s.pos + 1 >= |buf| then Fail(s.(pos := s.pos + 1), UnexpectedEof)
    else
      var p := ParseFrom(buf, s.pos + 1, |buf|, ':', DigitOf(buf[s.pos]));
      var stop := s.(pos := p.pos);
      if p.error.Some? then Fail(stop, p.error.value)
      else if p.pos == |buf| then Fail(stop, ExpectedColon)
      else if p.val > |buf| - p.pos - 1 then Fail(stop, UnexpectedEof)
      else if p.pos + 1 - s.pos - 2 > MAX_HEADER then Fail(s.(pos := p.pos + 1), LimitExceeded)
      else
        Parsed(State(p.pos + 1 + p.val,
                     s.tokens + [Token(s.pos, 1, StringToken, p.pos + 1 - s.pos - 2)],
                     Flip(s), s.budget))
  }

  /** One round of the parse loop. */
  function Step(buf: string, limit: nat, s: State): (r: Progress)
    requires Sane(buf, s)
    ensures r.More? ==> s.budget > 0 && r.state.budget == s.budget - 1 && Sane(buf, r.state)
    ensures r.Stop? ==> Rooted(r.outcome.state) && (r.outcome.Finished? ==> r.outcome.state.stack == [])
  {
    if s.pos == |buf| then Fail(s, UnexpectedEof)
    else if |s.stack| >= limit then Fail(s, DepthExceeded)
    else if s.budget <= 0 then Fail(s.(budget := s.budget - 1), LimitExceeded)
    else Dispatch(buf, s.(budget := s.budget - 1))
  }

  function Dispatch(buf: string, s: State): (r: Progress)
    requires Sane(buf, s) && s.pos < |buf|
    ensures r.More? ==> r.state.budget == s.budget && Sane(buf, r.state)
    ensures r.Stop? ==> Rooted(r.outcome.state) && (r.outcome.Finished? ==> r.outcome.state.stack == [])
  {
    var t := buf[s.pos];
    if SlotOf(s) == Key && !Numeric(t) && t != 'e' then Fail(s, ExpectedDigit)
    else if t == 'd' then More(OpenContainer(s, DictToken))
    else if t == 'l' then More(OpenContainer(s, ListToken))
    else if t == 'i' then ReadInteger(buf, s)
    else if t == 'e' then CloseContainer(s)
    else if !Numeric(t) then Fail(s, ExpectedValue)
    else ReadString(buf, s)
  }

  function Run(buf: string, limit: nat, s: State): (r: Outcome)
    requires Sane(buf, s)
    ensures Rooted(r.state) && (r.Finished? ==> r.state.stack == [])
    decreases s.budget
  {
    match Step(buf, limit, s)
    case Stop(outcome) => outcome
    case More(next) => Run(buf, limit, next)
  }

  /** What a failed parse leaves: every open container is closed at the position the
      parse stopped at; a dictionary that lacks the value of its last key gets an empty
      dictionary for it. next_item is a 29 bit field. */
  function Unwind(s: State): seq<Token>
    requires Rooted(s)
    decreases |s.stack|
  {
    if s.stack == [] then s.tokens + [Token(s.pos, 0, EndToken, 0)] else Unwind(UnwindStep(s))
  }

  /** Closes the innermost container. */
  function UnwindStep(s: State): (r: State)
    requires Rooted(s) && s.stack != []
    ensures Rooted(r) && |r.stack| == |s.stack| - 1
  {
    var filled := if SlotOf(s) == Slot.Value then s.tokens + Dummy(s.pos) else s.tokens;
    var top := s.stack[|s.stack| - 1].token;
    var closed := filled[top := filled[top].(next := (|filled| - top) % (MAX_NEXT_ITEM + 1))]
                  + [Token(s.pos, 1, EndToken, 0)];
    s.(tokens := closed, stack := s.stack[..|s.stack| - 1])
  }

  function Dummy(pos: nat): seq<Token> {
    [Token(pos, 2, DictToken, 0), Token(pos, 0, EndToken, 0)]
  }

  /** What bdecode() returns: the tokens, how much of the buffer they cover, and the error. */
  datatype Decoded =
    | Decoded(tokens: seq<Token>, size: nat, error: Option<(Error, nat)>)

  function Decode(buf: string, depthLimit: nat, tokenLimit: int): Decoded {
    if |buf| > MAX_OFFSET then Decoded([], 0, Some((LimitExceeded, 0)))
    else
      match Run(buf, depthLimit, State(0, [], [], tokenLimit))
      case Finished(s) => Decoded(Unwind(s), s.pos, None)
      case Failed(s, error, errorPos) => Decoded(Unwind(s), s.pos, Some((error, errorPos)))
  }
}
