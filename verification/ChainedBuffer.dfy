/** The chain of send buffers: a queue of bytes over buffers with holders of their own. */
module ChainedBuffer {

  /** A buffer in the chain: the bytes to send, the room behind them, and the holder that
      frees the memory. */
  datatype Buffer = Buffer(data: string, room: nat, holder: nat)

  function Used(b: Buffer): nat {
    |b.data|
  }

  function Size(b: Buffer): nat {
    |b.data| + b.room
  }

  /** The bytes of a chain. */
  function Bytes(vec: seq<Buffer>): string {
    if vec == [] then "" else vec[0].data + Bytes(vec[1..])
  }

  function Capacity(vec: seq<Buffer>): nat {
    if vec == [] then 0 else Size(vec[0]) + Capacity(vec[1..])
  }

  function Holders(vec: seq<Buffer>): seq<nat> {
    if vec == [] then [] else [vec[0].holder] + Holders(vec[1..])
  }

  lemma {:induction false} ConcatBytes(a: seq<Buffer>, b: seq<Buffer>)
    ensures Bytes(a + b) == Bytes(a) + Bytes(b)
  {
    if a == [] {
      assert a + b == b;
    } else {
      assert (a + b)[1..] == a[1..] + b;
      ConcatBytes(a[1..], b);
    }
  }

  lemma {:induction false} ConcatCapacity(a: seq<Buffer>, b: seq<Buffer>)
    ensures Capacity(a + b) == Capacity(a) + Capacity(b)
  {
    if a == [] {
      assert a + b == b;
    } else {
      assert (a + b)[1..] == a[1..] + b;
      ConcatCapacity(a[1..], b);
    }
  }

  lemma {:induction false} ConcatHolders(a: seq<Buffer>, b: seq<Buffer>)
    ensures Holders(a + b) == Holders(a) + Holders(b)
  {
    if a == [] {
      assert a + b == b;
    } else {
      assert (a + b)[1..] == a[1..] + b;
      ConcatHolders(a[1..], b);
    }
  }

  lemma ConcatChains(a: seq<Buffer>, b: seq<Buffer>)
    ensures Bytes(a + b) == Bytes(a) + Bytes(b)
    ensures Capacity(a + b) == Capacity(a) + Capacity(b)
    ensures Holders(a + b) == Holders(a) + Holders(b)
  {
    hide Bytes, Capacity, Holders;
    ConcatBytes(a, b);
    ConcatCapacity(a, b);
    ConcatHolders(a, b);
  }

  lemma OneBuffer(b: Buffer)
    ensures Bytes([b]) == b.data && Capacity([b]) == Size(b) && Holders([b]) == [b.holder]
  {
    assert [b][1..] == [];
  }

  /** The last buffer set apart. */
  lemma LastBuffer(vec: seq<Buffer>)
    requires vec != []
    ensures var init, last := vec[..|vec| - 1], vec[|vec| - 1];
      && Bytes(vec) == Bytes(init) + last.data
      && Capacity(vec) == Capacity(init) + Size(last)
      && Holders(vec) == Holders(init) + [last.holder]
  {
    var init, last := vec[..|vec| - 1], vec[|vec| - 1];
    assert vec == init + [last];
    ConcatChains(init, [last]);
    OneBuffer(last);
  }

  lemma {:induction false} UsedFits(vec: seq<Buffer>)
    ensures |Bytes(vec)| <= Capacity(vec)
  {
    if vec != [] {
      UsedFits(vec[1..]);
    }
  }

  /** The spans build_vec() collects. */
  function Spans(vec: seq<Buffer>, n: nat): seq<string> {
    if vec == [] || n == 0 then []
    else if |vec[0].data| > n then [vec[0].data[..n]]
    else [vec[0].data] + Spans(vec[1..], n - |vec[0].data|)
  }

  function Concat(spans: seq<string>): string {
    if spans == [] then "" else spans[0] + Concat(spans[1..])
  }

  /** Together they are the first n bytes, or all there are. */
  lemma {:induction false} SpansAreAPrefix(vec: seq<Buffer>, n: nat)
    ensures Concat(Spans(vec, n)) == if |Bytes(vec)| <= n then Bytes(vec) else Bytes(vec)[..n]
    decreases |vec|
  {
    if vec != [] && n > 0 {
      var data := vec[0].data;
      if |data| > n {
        assert [data[..n]][1..] == [];
        assert Bytes(vec)[..n] == data[..n];
      } else {
        var spans := Spans(vec, n);
        assert spans[1..] == Spans(vec[1..], n - |data|);
        SpansAreAPrefix(vec[1..], n - |data|);
        if |Bytes(vec)| > n {
          assert Bytes(vec)[..n] == data + Bytes(vec[1..])[..n - |data|];
        }
      }
    } else if vec != [] {
      assert Bytes(vec)[..0] == "";
    }
  }

  class Chain {
    var vec: seq<Buffer>
    var bytes: int
    var capacity: int
    // the holders given to the chain, and those that were destructed, in order
    ghost var given: seq<nat>
    ghost var destructed: seq<nat>

    constructor ()
      ensures Valid() && vec == [] && Contents() == "" && given == [] && destructed == []
    {
      vec, bytes, capacity, given, destructed := [], 0, 0, [], [];
    }

    ghost function Contents(): string
      reads this
    {
      Bytes(vec)
    }

    /** The counters are the sums over the buffers; and every holder that was given is in
        the chain or was destructed, once. */
    ghost predicate Valid()
      reads this
    {
      && bytes == |Bytes(vec)|
      && capacity == Capacity(vec)
      && forall h :: Times(given, h) == Times(destructed, h) + Times(Holders(vec), h)
    }

    /** A chain never holds more than it has room for. */
    lemma BytesFit()
      requires Valid()
      ensures 0 <= bytes <= capacity
    {
      UsedFits(vec);
    }

    method AppendBuffer(data: string, room: nat, holder: nat)
      requires Valid()
      modifies this
      ensures Valid()
      ensures Contents() == old(Contents()) + data
      ensures vec == old(vec) + [Buffer(data, room, holder)] && given == old(given) + [holder]
      ensures destructed == old(destructed)
    {
      var b := Buffer(data, room, holder);
      ConcatChains(vec, [b]);
      OneBuffer(b);
      GiveHolder(given, destructed, Holders(vec), holder);
      vec := vec + [b];
      bytes := bytes + Used(b);
      capacity := capacity + Size(b);
      given := given + [holder];
    }

    method PrependBuffer(data: string, room: nat, holder: nat)
      requires Valid()
      modifies this
      ensures Valid()
      ensures Contents() == data + old(Contents())
      ensures vec == [Buffer(data, room, holder)] + old(vec) && given == old(given) + [holder]
      ensures destructed == old(destructed)
    {
      var b := Buffer(data, room, holder);
      ConcatChains([b], vec);
      OneBuffer(b);
      GiveHolder(given, destructed, Holders(vec), holder);
      vec := [b] + vec;
      bytes := bytes + Used(b);
      capacity := capacity + Size(b);
      given := given + [holder];
    }

    method SpaceInLastBuffer() returns (space: nat)
      requires Valid()
      ensures vec == [] ==> space == 0
      ensures vec != [] ==> space == vec[|vec| - 1].room
    {
      if vec == [] {
        return 0;
      }
      space := Size(vec[|vec| - 1]) - Used(vec[|vec| - 1]);
    }

    /** Adds the bytes at the end of the last buffer, or changes nothing if they do not fit
        there. */
    method Append(data: string) returns (appended: bool)
      requires Valid()
      modifies this
      ensures Valid()
      ensures appended <==> old(vec) != [] && |data| <= old(vec)[|old(vec)| - 1].room
      ensures Contents() == if appended then old(Contents()) + data else old(Contents())
      ensures !appended ==> vec == old(vec)
      ensures capacity == old(capacity) && given == old(given) && destructed == old(destructed)
    {
      if vec == [] {
        return false;
      }
      var b := vec[|vec| - 1];
      if Used(b) + |data| > Size(b) {
        return false;
      }
      ghost var was := vec;
      LastBuffer(was);
      b := b.(data := b.data + data, room := b.room - |data|);
      vec := vec[..|vec| - 1] + [b];
      LastBuffer(vec);
      assert vec[..|vec| - 1] == was[..|was| - 1];
      bytes := bytes + |data|;
      appended := true;
    }

    /** Drops the buffer in front, whose bytes were all popped. */
    method DropFront()
      requires Valid() && vec != []
      modifies this
      ensures Valid()
      ensures vec == old(vec)[1..] && given == old(given)
      ensures Contents() == old(Contents())[|old(vec)[0].data|..]
      ensures destructed == old(destructed) + [old(vec)[0].holder]
    {
      var b := vec[0];
      TakeHolder(given, destructed, Holders(vec));
      assert Holders(vec)[1..] == Holders(vec[1..]);
      assert Bytes(vec)[|b.data|..] == Bytes(vec[1..]);
      destructed := destructed + [b.holder];
      bytes := bytes - Used(b);
      capacity := capacity - Size(b);
      vec := vec[1..];
    }

    /** Drops the first n bytes. The first k buffers, all of whose bytes were among them, are
        destructed; the next one loses its front. */
    method PopFront(n: nat) returns (ghost k: nat)
      requires Valid() && n <= bytes
      modifies this
      ensures Valid()
      ensures Contents() == old(Contents())[n..] && given == old(given)
      ensures k <= |old(vec)| && destructed == old(destructed) + Holders(old(vec)[..k])
      ensures k > 0 ==> |Bytes(old(vec)[..k - 1])| < n
      ensures var popped := |Bytes(old(vec)[..k])|;
        if popped == n then vec == old(vec)[k..]
        else
          && popped < n && k < |old(vec)| && n - popped < |old(vec)[k].data|
          && vec == [old(vec)[k].(data := old(vec)[k].data[n - popped..])] + old(vec)[k + 1..]
    {
      hide Holders, Capacity, Times;
      var left := n;
      ghost var all, was, before := Contents(), vec, destructed;
      k := 0;
      NoHolders();
      assert was[..0] == [] && was[0..] == was;
      while left > 0 && vec != []
        invariant Valid() && 0 <= left <= n && left <= bytes
        invariant Contents() == all[n - left..] && |all| >= n
        invariant k <= |was| && vec == was[k..] && given == old(given)
        invariant |Bytes(was[..k])| == n - left && destructed == before + Holders(was[..k])
        invariant k > 0 ==> |Bytes(was[..k - 1])| < n
        decreases |vec|
      {
        var b := vec[0];
        if Used(b) > left {
          DropPart(left);
          assert Contents() == all[n - left..][left..];
          assert was[k..][1..] == was[k + 1..];
          return;
        }
        NextPopped(was, k);
        DropFront();
        left, k := left - Used(b), k + 1;
      }
      assert left == 0;
    }

    static lemma NoHolders()
      ensures Holders([]) == []
    {
    }

    static lemma NextPopped(vec: seq<Buffer>, k: nat)
      requires k < |vec|
      ensures |Bytes(vec[..k + 1])| == |Bytes(vec[..k])| + Used(vec[k])
      ensures Holders(vec[..k + 1]) == Holders(vec[..k]) + [vec[k].holder]
      ensures vec[..k + 1][..k] == vec[..k] && vec[k..][1..] == vec[k + 1..]
    {
      hide Bytes, Holders, Capacity;
      LastBuffer(vec[..k + 1]);
      assert vec[..k + 1][..k] == vec[..k];
    }

    /** Drops some of the bytes of the buffer in front; its room behind them stays. */
    method DropPart(n: nat)
      requires Valid() && vec != [] && n < Used(vec[0])
      modifies this
      ensures Valid()
      ensures vec == [old(vec)[0].(data := old(vec)[0].data[n..])] + old(vec)[1..]
      ensures Contents() == old(Contents())[n..] && Holders(vec) == Holders(old(vec))
      ensures given == old(given) && destructed == old(destructed)
    {
      ghost var before := vec;
      var b := vec[0];
      vec := [b.(data := b.data[n..])] + vec[1..];
      assert vec[1..] == before[1..];
      assert Bytes(vec) == Bytes(before)[n..];
      capacity, bytes := capacity - n, bytes - n;
    }

    /** The spans that hold the first n bytes. */
    method BuildVec(n: nat) returns (spans: seq<string>)
      requires Valid()
      ensures spans == Spans(vec, n)
      ensures Concat(spans) == if |Contents()| <= n then Contents() else Contents()[..n]
    {
      spans := [];
      var left, i := n, 0;
      while left > 0 && i < |vec|
        invariant 0 <= i <= |vec| && left >= 0
        invariant spans + Spans(vec[i..], left) == Spans(vec, n)
        decreases |vec| - i
      {
        assert vec[i..][1..] == vec[i + 1..];
        if Used(vec[i]) > left {
          spans := spans + [vec[i].data[..left]];
          left := 0;
          break;
        }
        assert spans + [vec[i].data] + Spans(vec[i + 1..], left - Used(vec[i])) == spans + ([vec[i].data] + Spans(vec[i + 1..], left - Used(vec[i])));
        spans := spans + [vec[i].data];
        left := left - Used(vec[i]);
        i := i + 1;
      }
      SpansAreAPrefix(vec, n);
    }

    /** Destructs every holder that is left. */
    method Clear()
      requires Valid()
      modifies this
      ensures Valid()
      ensures vec == [] && Contents() == "" && capacity == 0
      ensures given == old(given)
      ensures forall h :: Times(destructed, h) == Times(given, h)
    {
      ghost var before := destructed;
      var i := 0;
      assert vec[0..] == vec;
      while i < |vec|
        invariant 0 <= i <= |vec| && vec == old(vec) && given == old(given)
        invariant destructed + Holders(vec[i..]) == before + Holders(vec)
      {
        assert vec[i..][1..] == vec[i + 1..];
        assert destructed + ([vec[i].holder] + Holders(vec[i + 1..])) == destructed + [vec[i].holder] + Holders(vec[i + 1..]);
        destructed := destructed + [vec[i].holder];
        i := i + 1;
      }
      assert destructed + [] == destructed;
      AllDestructed(given, before, Holders(vec), destructed);
      bytes, capacity, vec := 0, 0, [];
    }
  }

  /** How often a holder is in a list. */
  function Times(hs: seq<nat>, h: nat): nat {
    if hs == [] then 0 else (if hs[0] == h then 1 else 0) + Times(hs[1..], h)
  }

  lemma {:induction false} TimesConcat(a: seq<nat>, b: seq<nat>, h: nat)
    ensures Times(a + b, h) == Times(a, h) + Times(b, h)
  {
    if a == [] {
      assert a + b == b;
    } else {
      assert (a + b)[1..] == a[1..] + b;
      TimesConcat(a[1..], b, h);
    }
  }

  lemma GiveHolder(given: seq<nat>, gone: seq<nat>, held: seq<nat>, holder: nat)
    requires forall h :: Times(given, h) == Times(gone, h) + Times(held, h)
    ensures forall h :: Times(given + [holder], h) == Times(gone, h) + Times(held + [holder], h)
    ensures forall h :: Times(given + [holder], h) == Times(gone, h) + Times([holder] + held, h)
  {
    forall h: nat
      ensures Times(given + [holder], h) == Times(gone, h) + Times(held + [holder], h)
      ensures Times(given + [holder], h) == Times(gone, h) + Times([holder] + held, h)
    {
      TimesConcat(given, [holder], h);
      TimesConcat(held, [holder], h);
      TimesConcat([holder], held, h);
    }
  }

  lemma TakeHolder(given: seq<nat>, gone: seq<nat>, held: seq<nat>)
    requires forall h :: Times(given, h) == Times(gone, h) + Times(held, h)
    requires held != []
    ensures forall h :: Times(given, h) == Times(gone + [held[0]], h) + Times(held[1..], h)
  {
    forall h: nat
      ensures Times(given, h) == Times(gone + [held[0]], h) + Times(held[1..], h)
    {
      TimesConcat(gone, [held[0]], h);
      assert Times([held[0]], h) == if held[0] == h then 1 else 0 by { assert [held[0]][1..] == []; }
    }
  }

  lemma AllDestructed(given: seq<nat>, gone: seq<nat>, held: seq<nat>, all: seq<nat>)
    requires forall h :: Times(given, h) == Times(gone, h) + Times(held, h)
    requires all == gone + held
    ensures forall h :: Times(all, h) == Times(given, h)
  {
    forall h: nat
      ensures Times(all, h) == Times(given, h)
    {
      TimesConcat(gone, held, h);
    }
  }
}
