/** The payload markers of a peer connection: which bytes of the send buffer are payload,
    and how many of the bytes that were sent were. */
module Payload {

  /** A range of payload bytes, relative to the first byte that was not sent. */
  datatype Marker = Marker(start: int, length: int)

  /** Markers are in order, do not overlap and are not empty. */
  predicate Ordered(ms: seq<Marker>) {
    && (forall i :: 0 <= i < |ms| ==> ms[i].start >= 0 && ms[i].length > 0)
    && (forall i, j :: 0 <= i < j < |ms| ==> ms[i].start + ms[i].length <= ms[j].start)
  }

  /** Byte x of the send buffer is payload. */
  predicate IsPayload(ms: seq<Marker>, x: int) {
    exists i :: 0 <= i < |ms| && ms[i].start <= x < ms[i].start + ms[i].length
  }

  /** How many of the first n bytes are payload. */
  function PayloadIn(ms: seq<Marker>, n: nat): nat {
    if n == 0 then 0 else PayloadIn(ms, n - 1) + (if IsPayload(ms, n - 1) then 1 else 0)
  }

  /** The part of a marker that is within the first n bytes. */
  function Part(m: Marker, n: nat): int {
    if m.start >= n then 0 else if m.start + m.length <= n then m.length else n - m.start
  }

  function Parts(ms: seq<Marker>, n: nat): int {
    if ms == [] then 0 else Parts(ms[..|ms| - 1], n) + Part(ms[|ms| - 1], n)
  }

  /** What is left of a marker after n bytes were sent. */
  function Moved(m: Marker, n: nat): Marker {
    if m.start >= n then Marker(m.start - n, m.length) else Marker(0, m.length - (n - m.start))
  }

  predicate Gone(m: Marker, n: nat) {
    m.start + m.length <= n
  }

  /** The markers that are left, moved. */
  function Shift(ms: seq<Marker>, n: nat): (r: seq<Marker>)
    ensures |r| <= |ms|
  {
    if ms == [] then []
    else
      Shift(ms[..|ms| - 1], n) + (if Gone(ms[|ms| - 1], n) then [] else [Moved(ms[|ms| - 1], n)])
  }

  // ----- what they mean -----

  /** Before the last marker nothing changes when it is left out. */
  lemma LastMarker(ms: seq<Marker>, x: int)
    requires ms != []
    ensures IsPayload(ms, x) <==>
      IsPayload(ms[..|ms| - 1], x) || ms[|ms| - 1].start <= x < ms[|ms| - 1].start + ms[|ms| - 1].length
  {
    var init, last := ms[..|ms| - 1], ms[|ms| - 1];
    if IsPayload(ms, x) {
      var i :| 0 <= i < |ms| && ms[i].start <= x < ms[i].start + ms[i].length;
      assert i < |init| ==> init[i] == ms[i];
    }
    if IsPayload(init, x) {
      var i :| 0 <= i < |init| && init[i].start <= x < init[i].start + init[i].length;
      assert ms[i] == init[i];
    }
    assert ms[|ms| - 1] == last;
  }

  lemma InitIsOrdered(ms: seq<Marker>)
    requires Ordered(ms) && ms != []
    ensures Ordered(ms[..|ms| - 1])
  {
  }

  lemma BeforeLast(ms: seq<Marker>, x: int)
    requires Ordered(ms) && ms != [] && IsPayload(ms[..|ms| - 1], x)
    ensures x < ms[|ms| - 1].start
  {
    var init := ms[..|ms| - 1];
    var i :| 0 <= i < |init| && init[i].start <= x < init[i].start + init[i].length;
    assert init[i] == ms[i];
  }

  /** The sum of the parts is the number of payload bytes. */
  lemma {:induction false} PartsAreBytes(ms: seq<Marker>, n: nat)
    requires Ordered(ms)
    ensures Parts(ms, n) == PayloadIn(ms, n)
    decreases |ms|
  {
    if ms == [] {
      NoPayload(n);
    } else {
      InitIsOrdered(ms);
      PartsAreBytes(ms[..|ms| - 1], n);
      AddLast(ms, n);
    }
  }

  lemma {:induction false} NoPayload(n: nat)
    ensures PayloadIn([], n) == 0
  {
    if n > 0 {
      NoPayload(n - 1);
    }
  }

  lemma {:induction false} AddLast(ms: seq<Marker>, n: nat)
    requires Ordered(ms) && ms != []
    ensures PayloadIn(ms, n) == PayloadIn(ms[..|ms| - 1], n) + Part(ms[|ms| - 1], n)
    decreases n
  {
    if n > 0 {
      AddLast(ms, n - 1);
      LastMarker(ms, n - 1);
      if IsPayload(ms[..|ms| - 1], n - 1) {
        BeforeLast(ms, n - 1);
      }
    }
  }

  /** After n bytes were sent, byte x is what byte x + n was. */
  lemma {:induction false} ShiftMeans(ms: seq<Marker>, n: nat, x: nat)
    requires Ordered(ms)
    ensures IsPayload(Shift(ms, n), x) <==> IsPayload(ms, x + n)
    decreases |ms|
  {
    if ms != [] {
      var init, last := ms[..|ms| - 1], ms[|ms| - 1];
      InitIsOrdered(ms);
      ShiftMeans(init, n, x);
      LastMarker(ms, x + n);
      if !Gone(last, n) {
        var r := Shift(ms, n);
        assert r[..|r| - 1] == Shift(init, n);
        LastMarker(r, x);
      } else {
        assert Shift(ms, n) == Shift(init, n);
      }
    }
  }

  lemma ShiftStep(ms: seq<Marker>, n: nat)
    requires ms != []
    ensures var init, last := ms[..|ms| - 1], ms[|ms| - 1];
      Shift(ms, n) == if Gone(last, n) then Shift(init, n) else Shift(init, n) + [Moved(last, n)]
  {
    assert Shift(ms[..|ms| - 1], n) + [] == Shift(ms[..|ms| - 1], n);
  }

  /** The markers that are left end n bytes earlier. */
  lemma {:induction false} ShiftStaysOrdered(ms: seq<Marker>, n: nat, e: int)
    requires Ordered(ms) && forall i :: 0 <= i < |ms| ==> ms[i].start + ms[i].length <= e
    ensures Ordered(Shift(ms, n))
    ensures forall i :: 0 <= i < |Shift(ms, n)| ==> Shift(ms, n)[i].start + Shift(ms, n)[i].length <= e - n
    decreases |ms|
  {
    if ms != [] {
      hide Shift;
      var init, last := ms[..|ms| - 1], ms[|ms| - 1];
      ShiftStep(ms, n);
      ShiftStaysOrdered(init, n, last.start);
      ShiftStaysOrdered(init, n, e);
    }
  }

  function EndOf(ms: seq<Marker>): int {
    if ms == [] then 0 else ms[|ms| - 1].start + ms[|ms| - 1].length
  }

  lemma ShiftKeepsOrder(ms: seq<Marker>, n: nat)
    requires Ordered(ms)
    ensures Ordered(Shift(ms, n))
  {
    hide Shift;
    ShiftStaysOrdered(ms, n, EndOf(ms));
  }

  /** Counting in two steps counts every byte once. */
  lemma {:induction false} PayloadSplits(ms: seq<Marker>, a: nat, b: nat)
    requires Ordered(ms)
    ensures PayloadIn(ms, a + b) == PayloadIn(ms, a) + PayloadIn(Shift(ms, a), b)
    decreases b
  {
    if b > 0 {
      PayloadSplits(ms, a, b - 1);
      ShiftMeans(ms, a, b - 1);
    }
  }

  lemma MovedTwice(m: Marker, a: nat, b: nat)
    requires !Gone(m, a)
    ensures Gone(Moved(m, a), b) <==> Gone(m, a + b)
    ensures Moved(Moved(m, a), b) == Moved(m, a + b)
  {
  }

  lemma {:induction false} ShiftTwice(ms: seq<Marker>, a: nat, b: nat)
    ensures Shift(Shift(ms, a), b) == Shift(ms, a + b)
    decreases |ms|
  {
    if ms != [] {
      hide Shift, Moved;
      var init, last := ms[..|ms| - 1], ms[|ms| - 1];
      ShiftTwice(init, a, b);
      ShiftStep(ms, a);
      ShiftStep(ms, a + b);
      if !Gone(last, a) {
        var r := Shift(ms, a);
        assert r[..|r| - 1] == Shift(init, a) && r[|r| - 1] == Moved(last, a);
        ShiftStep(r, b);
        MovedTwice(last, a, b);
      }
    }
  }

  /** The payload counted over a series of calls. */
  function Counted(ms: seq<Marker>, sent: seq<nat>): nat
    decreases |sent|
  {
    if sent == [] then 0 else PayloadIn(ms, sent[0]) + Counted(Shift(ms, sent[0]), sent[1..])
  }

  function Total(sent: seq<nat>): nat {
    if sent == [] then 0 else sent[0] + Total(sent[1..])
  }

  /** However the bytes are cut up into calls, the payload counted is the payload among them
      all, every byte once. */
  lemma {:induction false} FragmentationDoesNotMatter(ms: seq<Marker>, sent: seq<nat>)
    requires Ordered(ms)
    ensures Counted(ms, sent) == PayloadIn(ms, Total(sent))
    decreases |sent|
  {
    if sent != [] {
      ShiftKeepsOrder(ms, sent[0]);
      FragmentationDoesNotMatter(Shift(ms, sent[0]), sent[1..]);
      PayloadSplits(ms, sent[0], Total(sent[1..]));
    }
  }

  // ----- the vector of markers -----

  class SendMarkers {
    var payloads: seq<Marker>

    constructor ()
      ensures payloads == []
    {
      payloads := [];
    }

    /** A block was put at the end of a send buffer that now holds size bytes. */
    method AddPayload(size: nat, length: nat)
      requires Ordered(payloads) && 0 < length <= size
      requires payloads != [] ==> payloads[|payloads| - 1].start + payloads[|payloads| - 1].length <= size - length
      modifies this
      ensures Ordered(payloads)
      ensures forall x :: IsPayload(payloads, x) <==> IsPayload(old(payloads), x) || size - length <= x < size
    {
      ghost var was := payloads;
      payloads := payloads + [Marker(size - length, length)];
      assert payloads[..|payloads| - 1] == was;
      forall i | 0 <= i < |was|
        ensures was[i].start + was[i].length <= size - length
      {
        assert i < |was| - 1 ==> was[i].start + was[i].length <= was[|was| - 1].start;
      }
      forall x
        ensures IsPayload(payloads, x) <==> IsPayload(was, x) || size - length <= x < size
      {
        LastMarker(payloads, x);
      }
    }

    /** One round of the loop: what became of marker m. */
    method Advance(m: Marker, n: nat) returns (r: Marker, amount: int, gone: bool)
      requires m.start >= 0 && m.length > 0
      ensures gone <==> Gone(m, n)
      ensures amount == Part(m, n)
      ensures !gone ==> r == Moved(m, n)
    {
      r := m.(start := m.start - n);
      amount, gone := 0, false;
      if r.start < 0 {
        if r.start + r.length <= 0 {
          amount, gone := r.length, true;
        } else {
          amount := -r.start;
          r := Marker(0, r.length - -r.start);
        }
      }
    }

    /** The first n bytes of the send buffer were sent: returns how many of them were
        payload and how many protocol. After an error all of them count as protocol. */
    method OnSent(failed: bool, n: nat) returns (amountPayload: int, amountProtocol: int)
      requires Ordered(payloads)
      modifies this
      ensures Ordered(payloads) && amountPayload + amountProtocol == n
      ensures failed ==> payloads == old(payloads) && amountPayload == 0
      ensures !failed ==> payloads == Shift(old(payloads), n) && 0 <= amountPayload == PayloadIn(old(payloads), n) <= n
    {
      hide Shift, Parts, PayloadIn;
      if failed {
        return 0, n;
      }
      ghost var ms := payloads;
      NothingSeen(ms, n);
      amountPayload := 0;
      var firstToKeep, i := 0, 0;
      while i < |payloads|
        invariant 0 <= firstToKeep <= i <= |payloads| == |ms|
        invariant forall j :: i <= j < |ms| ==> payloads[j] == ms[j]
        invariant amountPayload == Parts(ms[..i], n)
        invariant payloads[firstToKeep..i] == Shift(ms[..i], n)
        invariant firstToKeep < i ==> !Gone(ms[i - 1], n)
        decreases |ms| - i
      {
        var m, amount, gone := Advance(payloads[i], n);
        amountPayload := amountPayload + amount;
        OneMoreSeen(ms, i, n);
        if gone {
          AllGoneBefore(ms, i, n);
          firstToKeep := firstToKeep + 1;
        }
        ghost var before := payloads;
        payloads := payloads[i := m];
        if !gone {
          assert payloads[firstToKeep..i + 1] == before[firstToKeep..i] + [m];
        } else {
          assert payloads[firstToKeep..i + 1] == [];
        }
        i := i + 1;
      }
      assert ms[..i] == ms && payloads[firstToKeep..] == payloads[firstToKeep..i];
      payloads := payloads[firstToKeep..];
      ShiftKeepsOrder(ms, n);
      PartsAreBytes(ms, n);
      AtMost(ms, n);
      amountProtocol := n - amountPayload;
    }

    static lemma NothingSeen(ms: seq<Marker>, n: nat)
      ensures Shift(ms[..0], n) == [] && Parts(ms[..0], n) == 0
    {
    }

    static lemma OneMoreSeen(ms: seq<Marker>, i: nat, n: nat)
      requires i < |ms|
      ensures Parts(ms[..i + 1], n) == Parts(ms[..i], n) + Part(ms[i], n)
      ensures Shift(ms[..i + 1], n) == if Gone(ms[i], n) then Shift(ms[..i], n) else Shift(ms[..i], n) + [Moved(ms[i], n)]
    {
      hide Shift;
      assert ms[..i + 1][..i] == ms[..i];
      ShiftStep(ms[..i + 1], n);
    }

    /** The markers that were sent are the first ones. */
    static lemma AllGoneBefore(ms: seq<Marker>, i: nat, n: nat)
      requires Ordered(ms) && i < |ms| && Gone(ms[i], n)
      ensures i > 0 ==> Gone(ms[i - 1], n)
      ensures Shift(ms[..i], n) == []
    {
      forall j | 0 <= j < i
        ensures Gone(ms[j], n)
      {
      }
      NoneLeft(ms[..i], n);
    }

    static lemma {:induction false} NoneLeft(ms: seq<Marker>, n: nat)
      requires forall j :: 0 <= j < |ms| ==> Gone(ms[j], n)
      ensures Shift(ms, n) == []
    {
      if ms != [] {
        NoneLeft(ms[..|ms| - 1], n);
      }
    }

    static lemma {:induction false} AtMost(ms: seq<Marker>, n: nat)
      ensures PayloadIn(ms, n) <= n
    {
      if n > 0 {
        AtMost(ms, n - 1);
      }
    }
  }
}
