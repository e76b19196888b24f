/** Where the links of a token array come to the end of their 29 bits: a quarter of a
    gigabyte of nested lists that is cut off in the middle of a pair. */
module BdecodeLink {
  import opened Options
  import opened Numbers
  import opened Grammar
  import opened Bdecode
  import opened BdecodeFailure

  /** n lists, one inside the other, and in the innermost one a dictionary with a key only. */
  function Nested(n: nat): (r: string)
    ensures |r| == n + 4
    ensures forall i :: 0 <= i < n ==> r[i] == 'l'
    ensures r[n] == 'd' && r[n + 1] == '1' && r[n + 2] == ':' && r[n + 3] == 'a'
  {
    if n == 0 then "d1:a" else "l" + Nested(n - 1)
  }

  function ListTokens(n: nat): (r: seq<Token>)
    ensures |r| == n
    ensures forall i :: 0 <= i < n ==> r[i] == Token(i, 0, ListToken, 0)
  {
    if n == 0 then [] else ListTokens(n - 1) + [Token(n - 1, 0, ListToken, 0)]
  }

  function ListFrames(n: nat): (r: seq<Frame>)
    ensures |r| == n
    ensures forall i :: 0 <= i < n ==> r[i] == Frame(i, 0)
  {
    if n == 0 then [] else ListFrames(n - 1) + [Frame(n - 1, 0)]
  }

  function Opened(i: nat, budget: int): State {
    State(i, ListTokens(i), ListFrames(i), budget)
  }

  lemma {:induction false} RunOpens(n: nat, limit: nat, i: nat, budget: int)
    requires i <= n < limit && budget > n - i
    ensures Run(Nested(n), limit, Opened(i, budget)) == Run(Nested(n), limit, Opened(n, budget - (n - i)))
    decreases n - i
  {
    hide Nested, Run, ListTokens, ListFrames;
    if i < n {
      OpensOne(n, limit, i, budget);
      RunOpens(n, limit, i + 1, budget - 1);
    }
  }

  lemma OpensOne(n: nat, limit: nat, i: nat, budget: int)
    requires i < n < limit && budget > 0
    ensures Run(Nested(n), limit, Opened(i, budget)) == Run(Nested(n), limit, Opened(i + 1, budget - 1))
  {
    hide Nested;
    assert Step(Nested(n), limit, Opened(i, budget)) == More(Opened(i + 1, budget - 1));
  }

  /** The key was read, and the buffer is at its end. */
  function CutOff(n: nat, budget: int): State {
    State(n + 4, ListTokens(n) + [Token(n, 0, DictToken, 0)] + [Token(n + 1, 1, StringToken, 0)],
          ListFrames(n) + [Frame(n, 1)], budget)
  }

  lemma RunsOut(n: nat, limit: nat, budget: int)
    requires n + 1 < limit && budget > 1
    ensures Run(Nested(n), limit, Opened(n, budget)) == Failed(CutOff(n, budget - 2), UnexpectedEof, n + 4)
  {
    hide Nested, Step, Run, CutOff, Opened;
    OpensDictionary(n, limit, budget);
    var s1 := State(n + 1, ListTokens(n) + [Token(n, 0, DictToken, 0)], ListFrames(n) + [Frame(n, 0)], budget - 1);
    KeyIsRead(n, limit, budget - 1);
    BufferEnds(n, limit, budget - 2);
    OneRound(Nested(n), limit, Opened(n, budget), s1);
    OneRound(Nested(n), limit, s1, CutOff(n, budget - 2));
    LastRound(Nested(n), limit, CutOff(n, budget - 2), Failed(CutOff(n, budget - 2), UnexpectedEof, n + 4));
  }

  lemma OneRound(buf: string, limit: nat, s: State, t: State)
    requires Sane(buf, s) && Step(buf, limit, s) == More(t)
    ensures Sane(buf, t) && Run(buf, limit, s) == Run(buf, limit, t)
  {
    hide Step;
  }

  lemma LastRound(buf: string, limit: nat, s: State, o: Outcome)
    requires Sane(buf, s) && Step(buf, limit, s) == Stop(o)
    ensures Run(buf, limit, s) == o
  {
    hide Step;
  }

  lemma OpensDictionary(n: nat, limit: nat, budget: int)
    requires n + 1 < limit && budget > 1
    ensures Sane(Nested(n), Opened(n, budget))
    ensures Step(Nested(n), limit, Opened(n, budget))
      == More(State(n + 1, ListTokens(n) + [Token(n, 0, DictToken, 0)], ListFrames(n) + [Frame(n, 0)], budget - 1))
  {
    hide Nested, ListTokens, ListFrames;
  }

  lemma BufferEnds(n: nat, limit: nat, budget: int)
    requires n + 1 < limit
    ensures Sane(Nested(n), CutOff(n, budget))
    ensures Step(Nested(n), limit, CutOff(n, budget)) == Stop(Failed(CutOff(n, budget), UnexpectedEof, n + 4))
  {
    hide Nested, ListTokens, ListFrames;
  }

  lemma KeyIsRead(n: nat, limit: nat, budget: int)
    requires n + 1 < limit && budget > 0
    ensures var s := State(n + 1, ListTokens(n) + [Token(n, 0, DictToken, 0)], ListFrames(n) + [Frame(n, 0)], budget);
      Step(Nested(n), limit, s) == More(CutOff(n, budget - 1))
  {
    hide Nested, ListTokens, ListFrames;
    var s := State(n + 1, ListTokens(n) + [Token(n, 0, DictToken, 0)], ListFrames(n) + [Frame(n, 0)], budget - 1);
    var p := ParseFrom(Nested(n), n + 2, n + 4, ':', 1);
    assert p.pos == n + 2 && p.val == 1 && p.error == None;
    assert s.stack[..n] == ListFrames(n);
    assert Flip(s) == ListFrames(n) + [Frame(n, 1)];
  }

  /** The link of the second list, once the lists on the stack were closed. */
  lemma {:induction false} UnwindLists(s: State, m: nat)
    requires m >= 2 && s.stack == ListFrames(m) && |s.tokens| >= m
    requires forall i :: 0 <= i < m ==> s.tokens[i].kind == ListToken
    ensures Rooted(s)
    ensures var ts := Unwind(s);
      && |ts| > 2 && ts[0].kind == ListToken && ts[1].kind == ListToken
      && ts[1].next == (|s.tokens| + m - 3) % (MAX_NEXT_ITEM + 1)
    decreases m
  {
    hide Unwind;
    StepsDown(s, m);
    var t := UnwindStep(s);
    if m > 2 {
      UnwindLists(t, m - 1);
    } else {
      LastTwo(t);
    }
  }

  lemma StepsDown(s: State, m: nat)
    requires m >= 2 && s.stack == ListFrames(m) && |s.tokens| >= m
    requires forall i :: 0 <= i < m ==> s.tokens[i].kind == ListToken
    ensures Rooted(s) && Unwind(s) == Unwind(UnwindStep(s))
    ensures var t := UnwindStep(s);
      && t.stack == ListFrames(m - 1) && |t.tokens| == |s.tokens| + 1
      && (forall i :: 0 <= i < m ==> t.tokens[i].kind == ListToken)
      && t.tokens[m - 1].next == (|s.tokens| - (m - 1)) % (MAX_NEXT_ITEM + 1)
  {
    hide ListFrames, Unwind;
    assert s.stack[..m - 1] == ListFrames(m - 1);
    assert SlotOf(s) == Item;
    assert UnwindStep(s).tokens == s.tokens[m - 1 := s.tokens[m - 1].(next := (|s.tokens| - (m - 1)) % (MAX_NEXT_ITEM + 1))]
                                   + [Token(s.pos, 1, EndToken, 0)];
    UnwindsOn(s);
  }

  lemma UnwindsOn(s: State)
    requires Rooted(s) && s.stack != []
    ensures Unwind(s) == Unwind(UnwindStep(s))
  {
    hide UnwindStep;
  }

  lemma LastTwo(t: State)
    requires t.stack == ListFrames(1) && |t.tokens| > 2 && t.tokens[0].kind == ListToken
    ensures Rooted(t)
    ensures var ts := Unwind(t); |ts| > 2 && ts[0].kind == ListToken && ts[1] == t.tokens[1]
  {
    var u := UnwindStep(t);
    assert u.stack == [];
  }

  lemma LinkOfTheSecond(n: nat, budget: int)
    requires n >= 2
    ensures Rooted(CutOff(n, budget))
    ensures var ts := Unwind(CutOff(n, budget));
      && |ts| > 2 && ts[0].kind == ListToken && ts[1].kind == ListToken
      && ts[1].next == (2 * n + 2) % (MAX_NEXT_ITEM + 1)
  {
    hide ListTokens, ListFrames;
    var s := CutOff(n, budget);
    var t := UnwindStep(s);
    assert s.stack[..n] == ListFrames(n);
    assert SlotOf(s) == Slot.Value;
    assert |t.tokens| == n + 5;
    UnwindLists(t, n);
  }

  const DEEP: nat := 0xfff_ffff

  /** With limits that let it through, the link of the second list comes out as nothing, and
      the list around it cannot be walked. */
  lemma LinkCanBeCutOff()
    ensures |Nested(DEEP)| == 0x1000_0003 < MAX_OFFSET
    ensures !Walkable(Decode(Nested(DEEP), 0x1000_0001, 0x1000_0003).tokens)
  {
    hide Nested, Run, Unwind, Walk;
    RunOpens(DEEP, 0x1000_0001, 0, 0x1000_0003);
    RunsOut(DEEP, 0x1000_0001, 0x1000_0003 - DEEP);
    LinkOfTheSecond(DEEP, 0x1000_0003 - DEEP - 2);
    var ts := Decode(Nested(DEEP), 0x1000_0001, 0x1000_0003).tokens;
    assert ts == Unwind(CutOff(DEEP, 0x1000_0003 - DEEP - 2));
    CannotBeWalked(ts);
  }

  lemma CannotBeWalked(ts: seq<Token>)
    requires |ts| > 2 && ts[0].kind == ListToken && ts[1].kind == ListToken && ts[1].next == 0
    ensures !Walkable(ts)
  {
    assert !Walk(ts, 0 + 1, StartSlot(ts[0].kind));
  }
}
