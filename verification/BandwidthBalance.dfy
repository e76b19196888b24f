/** A request takes from its first five channels and gives back to all of them: when that
    balances, and when the channels it waits for bound what it gets. */
module BandwidthBalance {
  import opened Bandwidth

  /** What was handed out to a request in a series of rounds. */
  function Total(amounts: seq<int>): int {
    if amounts == [] then 0 else Total(amounts[..|amounts| - 1]) + amounts[|amounts| - 1]
  }

  /** The pool after the request took these amounts, one a round. */
  function Charged(pool: seq<Channel>, r: Request, amounts: seq<int>): (p: seq<Channel>)
    requires ChannelsIn(pool, r)
    ensures |p| == |pool|
  {
    if amounts == [] then pool
    else Use(Charged(pool, r, amounts[..|amounts| - 1]), r, Assigning(r), amounts[|amounts| - 1])
  }

  /** And after the request left and gave back what it had. */
  function Left(pool: seq<Channel>, r: Request, amounts: seq<int>): (p: seq<Channel>)
    requires ChannelsIn(pool, r)
    ensures |p| == |pool|
  {
    Use(Charged(pool, r, amounts), r, |r.channels|, -Total(amounts))
  }

  lemma {:induction false} ChargedAt(pool: seq<Channel>, r: Request, amounts: seq<int>, k: nat)
    requires ChannelsIn(pool, r) && k < |pool|
    ensures Charged(pool, r, amounts)[k]
      == if pool[k].limit == 0 then pool[k]
         else pool[k].(quotaLeft := pool[k].quotaLeft - Uses(r.channels, Assigning(r), k) * Total(amounts))
    decreases |amounts|
  {
    if amounts != [] {
      var n := |amounts| - 1;
      ChargedAt(pool, r, amounts[..n], k);
      UseAt(Charged(pool, r, amounts[..n]), r, Assigning(r), amounts[n], k);
      Distribute(Uses(r.channels, Assigning(r), k), Total(amounts[..n]), amounts[n]);
    }
  }

  lemma Distribute(n: int, a: int, b: int)
    ensures n * (a + b) == n * a + n * b
  {
  }

  /** A limited channel ends up with more by what was handed out, for every time it is
      among the channels behind the fifth. */
  lemma LeftAt(pool: seq<Channel>, r: Request, amounts: seq<int>, k: nat)
    requires ChannelsIn(pool, r) && k < |pool|
    ensures Left(pool, r, amounts)[k]
      == if pool[k].limit == 0 then pool[k]
         else pool[k].(quotaLeft := pool[k].quotaLeft
                       + (Uses(r.channels, |r.channels|, k) - Uses(r.channels, Assigning(r), k)) * Total(amounts))
  {
    ChargedAt(pool, r, amounts, k);
    UseAt(Charged(pool, r, amounts), r, |r.channels|, -Total(amounts), k);
    var all: int, some: int, t := Uses(r.channels, |r.channels|, k), Uses(r.channels, Assigning(r), k), Total(amounts);
    Distribute(t, all, -some);
    assert all * -t == -(t * all) && some * t == t * some && (all - some) * t == t * (all - some) && t * -some == -(t * some);
  }

  /** A channel is used again behind place n exactly if it is there. */
  lemma {:induction false} UsedBehindIff(channels: seq<nat>, n: nat, m: nat, k: nat)
    requires n <= m <= |channels|
    ensures Uses(channels, n, k) < Uses(channels, m, k) <==> k in channels[n..m]
    ensures Uses(channels, n, k) <= Uses(channels, m, k)
    decreases m
  {
    if n < m {
      UsedBehindIff(channels, n, m - 1, k);
      assert channels[n..m] == channels[n..m - 1] + [channels[m - 1]];
    }
  }

  /** The channels behind the fifth have no limit. */
  predicate FreeBehind(pool: seq<Channel>, r: Request)
    requires ChannelsIn(pool, r)
  {
    forall k :: k in r.channels[Assigning(r)..] ==> pool[k].limit == 0
  }

  /** A request that leaves puts every channel back to where it was exactly if it got
      nothing or no limited channel is behind its fifth. */
  lemma LeavingRestoresIff(pool: seq<Channel>, r: Request, amounts: seq<int>)
    requires ChannelsIn(pool, r)
    ensures Left(pool, r, amounts) == pool <==> Total(amounts) == 0 || FreeBehind(pool, r)
  {
    hide Left, Uses;
    var n := |r.channels|;
    assert r.channels[Assigning(r)..n] == r.channels[Assigning(r)..];
    forall k: nat | k < |pool|
      ensures Left(pool, r, amounts)[k] == pool[k] <==>
        pool[k].limit == 0 || Total(amounts) == 0 || k !in r.channels[Assigning(r)..]
    {
      LeftAt(pool, r, amounts, k);
      UsedBehindIff(r.channels, Assigning(r), n, k);
      ZeroProduct(Uses(r.channels, n, k) - Uses(r.channels, Assigning(r), k), Total(amounts));
    }
    if Total(amounts) != 0 && !FreeBehind(pool, r) {
      var k :| k in r.channels[Assigning(r)..] && pool[k].limit != 0;
      assert Left(pool, r, amounts)[k] != pool[k];
    }
  }

  lemma ZeroProduct(a: int, b: int)
    ensures a * b == 0 <==> a == 0 || b == 0
  {
  }

  /** Callers only pass limited channels: the refund is right exactly for requests that got
      nothing or wait for at most five of them. */
  lemma FiveChannelsBalance(pool: seq<Channel>, r: Request, amounts: seq<int>)
    requires ChannelsIn(pool, r) && forall j :: 0 <= j < |r.channels| ==> pool[r.channels[j]].limit != 0
    ensures Left(pool, r, amounts) == pool <==> Total(amounts) == 0 || |r.channels| <= ASSIGN_CHANNELS
  {
    LeavingRestoresIff(pool, r, amounts);
    if |r.channels| > ASSIGN_CHANNELS {
      assert r.channels[Assigning(r)] in r.channels[Assigning(r)..];
    }
  }

  // ----- what bounds a request -----

  /** The request gets at most its share of this channel. */
  predicate BoundBy(pool: seq<Channel>, r: Request, k: nat)
    requires Shareable(pool, r) && k < |pool|
  {
    var c := pool[k];
    c.limit != 0 && c.tmp > 0 ==> Quota(pool, r, Assigning(r)) <= c.distributeQuota * r.priority / c.tmp
  }

  ghost predicate BoundByAll(pool: seq<Channel>, r: Request)
    requires Shareable(pool, r)
  {
    forall k :: k in r.channels ==> BoundBy(pool, r, k)
  }

  /** Every channel behind the fifth is one of the first five as well. */
  predicate AmongTheFirst(r: Request) {
    forall k :: k in r.channels[Assigning(r)..] ==> k in r.channels[..Assigning(r)]
  }

  /** All channels a request waits for bound what it gets, whatever they have to distribute,
      exactly if those behind the fifth are among the first five. */
  lemma EveryChannelBoundsIff(r: Request, size: nat)
    requires r.priority > 0 && r.granted < r.requestSize && forall j :: 0 <= j < |r.channels| ==> r.channels[j] < size
    ensures (forall pool :: |pool| == size && Shareable(pool, r) ==> BoundByAll(pool, r)) <==> AmongTheFirst(r)
  {
    hide Uses, Quota, OnlyLimited;
    var n := Assigning(r);
    if AmongTheFirst(r) {
      forall pool, k | |pool| == size && Shareable(pool, r) && k in r.channels
        ensures BoundBy(pool, r, k)
      {
        assert r.channels == r.channels[..n] + r.channels[n..];
        UsesIfIn(r.channels, n, k);
        QuotaBounds(pool, r, n, k);
      }
    } else {
      var k :| k in r.channels[n..] && k !in r.channels[..n];
      assert k in r.channels;
      var pool := OnlyLimited(size, r.priority, k);
      OnlyLimitedIs(size, r.priority, k);
      NothingLimits(pool, r, n, k);
      assert Shareable(pool, r) && !BoundBy(pool, r, k);
    }
  }

  /** Channel k has a limit and nothing to distribute, the others have no limit. */
  function OnlyLimited(size: nat, priority: int, k: nat): (p: seq<Channel>)
    ensures |p| == size
  {
    if size == 0 then []
    else OnlyLimited(size - 1, priority, k) + [Channel(priority, 0, 0, if size - 1 == k then 1 else 0)]
  }

  lemma {:induction false} OnlyLimitedIs(size: nat, priority: int, k: nat)
    ensures forall i :: 0 <= i < size ==>
      OnlyLimited(size, priority, k)[i] == Channel(priority, 0, 0, if i == k then 1 else 0)
    decreases size
  {
    if size > 0 {
      OnlyLimitedIs(size - 1, priority, k);
    }
  }

  lemma {:induction false} NothingLimits(pool: seq<Channel>, r: Request, n: nat, k: nat)
    requires n <= |r.channels| && Shareable(pool, r) && k !in r.channels[..n]
    requires forall i :: 0 <= i < |pool| && i != k ==> pool[i].limit == 0
    ensures Quota(pool, r, n) == r.requestSize - r.granted
    decreases n
  {
    if n > 0 {
      assert r.channels[..n] == r.channels[..n - 1] + [r.channels[n - 1]];
      NothingLimits(pool, r, n - 1, k);
    }
  }

  /** Requests wait for distinct channels: all of them bound it exactly if they are at most
      five. */
  lemma FiveChannelsBound(r: Request, size: nat)
    requires r.priority > 0 && r.granted < r.requestSize && forall j :: 0 <= j < |r.channels| ==> r.channels[j] < size
    requires forall i, j :: 0 <= i < j < |r.channels| ==> r.channels[i] != r.channels[j]
    ensures (forall pool :: |pool| == size && Shareable(pool, r) ==> BoundByAll(pool, r))
      <==> |r.channels| <= ASSIGN_CHANNELS
  {
    EveryChannelBoundsIff(r, size);
    var n := Assigning(r);
    if |r.channels| > ASSIGN_CHANNELS {
      assert r.channels[n] in r.channels[n..];
      assert r.channels[n] !in r.channels[..n];
    }
  }

  // ----- a request with six channels -----

  /** Six channels, all limited; the last one has nothing to give. */
  const SIX := [Channel(1, 100, 100, 1), Channel(1, 100, 100, 1), Channel(1, 100, 100, 1), Channel(1, 100, 100, 1),
                Channel(1, 100, 100, 1), Channel(1, 0, 0, 1)]

  const WAITING := Request(0, 1, 0, 10, 20, [0, 1, 2, 3, 4, 5])

  /** The request gets all it asks for, though the sixth channel has nothing to distribute;
      and when it leaves, that channel has ten bytes more than it ever had. */
  lemma TheSixthGains()
    ensures Shareable(SIX, WAITING)
    ensures Quota(SIX, WAITING, Assigning(WAITING)) == 10 && !BoundBy(SIX, WAITING, 5)
    ensures Left(SIX, WAITING, [10])[5].quotaLeft == SIX[5].quotaLeft + 10
    ensures Left(SIX, WAITING, [10])[0] == SIX[0]
  {
    NothingLess(5);
    LeftAt(SIX, WAITING, [10], 5);
    LeftAt(SIX, WAITING, [10], 0);
    assert [10][..0] == [] && Total([10]) == 10;
    UsesOf(6);
    UsesOf(5);
  }

  lemma {:induction false} UsesOf(n: nat)
    requires n <= 6
    ensures Uses(WAITING.channels, n, 5) == if n == 6 then 1 else 0
    ensures Uses(WAITING.channels, n, 0) == if n > 0 then 1 else 0
    decreases n
  {
    if n > 0 {
      UsesOf(n - 1);
    }
  }

  lemma {:induction false} NothingLess(n: nat)
    requires n <= 5
    ensures Quota(SIX, WAITING, n) == 10
    decreases n
  {
    if n > 0 {
      NothingLess(n - 1);
      assert 100 * 1 / 1 == 100 && ToInt(100) == 100;
    }
  }
}
