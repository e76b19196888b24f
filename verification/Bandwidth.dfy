/** Bandwidth channels and requests as values, and that the shares of the requests that wait
    for a channel never sum to more than it has to distribute. */
module Bandwidth {

  const INF: int := 0x7fff_ffff

  function Min(a: int, b: int): int {
    if a < b then a else b
  }

  function Max(a: int, b: int): int {
    if a < b then b else a
  }

  /** A conversion to int: the low 32 bits. */
  function ToInt(x: int): int {
    var low := x % 0x1_0000_0000;
    if low < 0x8000_0000 then low else low - 0x1_0000_0000
  }

  predicate FitsInt(x: int) {
    -0x8000_0000 <= x <= INF
  }

  lemma ToIntIsExactIff(x: int)
    ensures ToInt(x) == x <==> FitsInt(x)
  {
  }

  // ----- one channel -----

  datatype Channel = Channel(tmp: int, distributeQuota: int, quotaLeft: int, limit: int)

  predicate LimitOk(c: Channel) {
    0 <= c.limit < INF
  }

  function QuotaLeft(c: Channel): int {
    if c.limit == 0 then INF else Max(ToInt(c.quotaLeft), 0)
  }

  /** The bytes the limit allows for a time, rounded. */
  function ToAdd(limit: int, dt: nat): int {
    (limit * dt + 500) / 1000
  }

  /** The quota after it was topped up: at most three seconds of it are kept. */
  function ToppedUp(c: Channel, dt: nat): int {
    if ToAdd(c.limit, dt) > INF - c.quotaLeft then INF
    else
      var q := c.quotaLeft + ToAdd(c.limit, dt);
      Min(if Third(q) > c.limit then 3 * c.limit else q, INF)
  }

  /** Division by three as the source has it: towards zero. */
  function Third(q: int): int {
    if q < 0 then -(-q / 3) else q / 3
  }

  function UpdateQuota(c: Channel, dt: nat): Channel {
    if c.limit == 0 then c
    else c.(quotaLeft := ToppedUp(c, dt), distributeQuota := ToInt(Max(ToppedUp(c, dt), 0)))
  }

  function UseQuota(c: Channel, amount: int): Channel {
    if c.limit == 0 then c else c.(quotaLeft := c.quotaLeft - amount)
  }

  function ReturnQuota(c: Channel, amount: int): Channel {
    if c.limit == 0 then c else c.(quotaLeft := c.quotaLeft + amount)
  }

  /** How the quota of a limited channel goes up in dt milliseconds: by the bytes the limit
      allows for the time, rounded to the next one, but to no more than an int holds, and to
      three times the limit once it would be three more than that. */
  predicate Filled(limit: int, before: int, after: int, dt: nat) {
    if limit * dt + 500 >= 1000 * (INF - before + 1) then after == INF
    else if limit * dt + 500 >= 1000 * (3 * (limit + 1) - before) then after == 3 * limit
    else limit * dt - 500 < 1000 * (after - before) <= limit * dt + 500
  }

  lemma ToppedUpIsFilled(c: Channel, dt: nat)
    requires LimitOk(c) && c.limit != 0
    ensures Filled(c.limit, c.quotaLeft, ToppedUp(c, dt), dt)
    ensures ToppedUp(c, dt) == INF || ToppedUp(c, dt) <= 3 * c.limit + 2
    ensures ToppedUp(c, dt) <= INF
  {
    Positive(c.limit, dt);
    Thousandth(c.limit * dt + 500, INF - c.quotaLeft + 1);
    Thousandth(c.limit * dt + 500, 3 * (c.limit + 1) - c.quotaLeft);
    ThirdExceeds(c.quotaLeft + ToAdd(c.limit, dt), c.limit);
  }

  lemma Thousandth(x: int, n: int)
    ensures x / 1000 >= n <==> x >= 1000 * n
    ensures x - 1000 < 1000 * (x / 1000) <= x
  {
  }

  lemma ThirdExceeds(q: int, limit: int)
    requires limit >= 0
    ensures Third(q) > limit <==> q >= 3 * (limit + 1)
  {
  }

  predicate NeedsQueueing(c: Channel, amount: int) {
    c.quotaLeft - amount < c.limit
  }

  // ----- one request -----

  const MAX_CHANNELS := 10

  /** assign_bandwidth() only goes through the first channels. */
  const ASSIGN_CHANNELS := 5

  /** channels are the places of its channels in the pool. */
  datatype Request = Request(peer: nat, priority: int, granted: int, requestSize: int, ttl: int, channels: seq<nat>)

  /** The share of a request in what a channel distributes. */
  function Share(c: Channel, priority: int): int
    requires c.tmp > 0
  {
    ToInt(c.distributeQuota * priority / c.tmp)
  }

  /** The smallest share in the first n channels that limit it, and at most quota. */
  function Quota(pool: seq<Channel>, r: Request, n: nat): int
    requires n <= |r.channels|
    requires forall j :: 0 <= j < n ==> r.channels[j] < |pool| && pool[r.channels[j]].tmp >= 0
  {
    if n == 0 then r.requestSize - r.granted
    else
      var c := pool[r.channels[n - 1]];
      var q := Quota(pool, r, n - 1);
      if c.limit == 0 || c.tmp == 0 then q else Min(Share(c, r.priority), q)
  }

  function Assigning(r: Request): nat {
    Min(|r.channels|, ASSIGN_CHANNELS)
  }

  /** The quota is taken from the first n channels of the request. */
  function Use(pool: seq<Channel>, r: Request, n: nat, amount: int): (p: seq<Channel>)
    requires n <= |r.channels| && forall j :: 0 <= j < n ==> r.channels[j] < |pool|
    ensures |p| == |pool|
  {
    if n == 0 then pool
    else
      var p := Use(pool, r, n - 1, amount);
      p[r.channels[n - 1] := UseQuota(p[r.channels[n - 1]], amount)]
  }

  // ----- how much a channel gives in one round -----

  /** How often a channel is among the first n of a list. */
  function Uses(channels: seq<nat>, n: nat, k: nat): nat
    requires n <= |channels|
  {
    if n == 0 then 0 else Uses(channels, n - 1, k) + (if channels[n - 1] == k then 1 else 0)
  }

  lemma {:induction false} UsesIfIn(channels: seq<nat>, n: nat, k: nat)
    requires n <= |channels|
    ensures Uses(channels, n, k) > 0 <==> k in channels[..n]
  {
    if n > 0 {
      UsesIfIn(channels, n - 1, k);
      assert channels[..n] == channels[..n - 1] + [channels[n - 1]];
    }
  }

  /** The priorities of the requests of a queue that wait for channel k. */
  function Weight(queue: seq<Request>, k: nat): int {
    if queue == [] then 0
    else Weight(queue[..|queue| - 1], k) + Uses(queue[|queue| - 1].channels, |queue[|queue| - 1].channels|, k) * queue[|queue| - 1].priority
  }

  /** What a series of requests takes from channel k. */
  function Taken(queue: seq<Request>, quotas: seq<int>, k: nat): int
    requires |queue| == |quotas|
  {
    if queue == [] then 0
    else
      var n := |queue| - 1;
      Taken(queue[..n], quotas[..n], k) + Uses(queue[n].channels, Assigning(queue[n]), k) * quotas[n]
  }

  /** Every request that is assigned from channel k gets at most its share there. */
  predicate WithinShares(queue: seq<Request>, quotas: seq<int>, k: nat, q: int, tmp: int)
    requires |queue| == |quotas| && tmp > 0
  {
    forall i :: 0 <= i < |queue| ==> WithinShare(queue[i], quotas[i], k, q, tmp)
  }

  predicate WithinShare(r: Request, quota: int, k: nat, q: int, tmp: int)
    requires tmp > 0
  {
    && r.priority > 0 && quota >= 0
    && (Uses(r.channels, Assigning(r), k) > 0 ==> quota <= q * r.priority / tmp)
  }

  lemma {:induction false} UsesGrows(channels: seq<nat>, n: nat, m: nat, k: nat)
    requires n <= m <= |channels|
    ensures Uses(channels, n, k) <= Uses(channels, m, k)
    decreases m
  {
    if n < m {
      UsesGrows(channels, n, m - 1, k);
    }
  }

  /** A share times the divisor is at most the product. */
  lemma ShareIsFloor(q: int, p: int, tmp: int)
    requires tmp > 0
    ensures (q * p / tmp) * tmp <= q * p
  {
    var x := q * p;
    assert x == tmp * (x / tmp) + x % tmp;
  }

  /** n appearances of a request at a channel take at most n shares. */
  lemma ShareBound(n: nat, m: nat, quota: int, q: int, p: int, tmp: int)
    requires tmp > 0 && q >= 0 && p > 0 && quota >= 0 && n <= m
    requires n > 0 ==> quota <= q * p / tmp
    ensures n * quota * tmp <= q * (m * p)
  {
    if n == 0 {
      assert n * quota * tmp == 0;
      Positive(q, m * p);
    } else {
      ShareIsFloor(q, p, tmp);
      Times(quota, q * p / tmp, tmp);
      assert quota * tmp <= q * p;
      Times(quota * tmp, q * p, n);
      assert n * quota * tmp == (quota * tmp) * n;
      Positive(q, p);
      Times(n, m, q * p);
      assert q * (m * p) == m * (q * p);
      assert (q * p) * n == n * (q * p);
    }
  }

  lemma Positive(a: int, b: int)
    requires a >= 0 && b >= 0
    ensures a * b >= 0
  {
  }

  lemma Times(a: int, b: int, c: int)
    requires a <= b && c >= 0
    ensures a * c <= b * c
  {
  }

  /** What is taken from a channel in one round, times the sum of the priorities, is at most
      what it distributes times the priorities. */
  lemma {:induction false} TakenBound(queue: seq<Request>, quotas: seq<int>, k: nat, q: int, tmp: int)
    requires |queue| == |quotas| && tmp > 0 && q >= 0
    requires WithinShares(queue, quotas, k, q, tmp)
    ensures Taken(queue, quotas, k) * tmp <= q * Weight(queue, k)
    decreases |queue|
  {
    if queue != [] {
      var n := |queue| - 1;
      var r := queue[n];
      assert WithinShare(r, quotas[n], k, q, tmp);
      InitWithin(queue, quotas, k, q, tmp);
      TakenBound(queue[..n], quotas[..n], k, q, tmp);
      UsesGrows(r.channels, Assigning(r), |r.channels|, k);
      var a, b := Uses(r.channels, Assigning(r), k), Uses(r.channels, |r.channels|, k);
      ShareBound(a, b, quotas[n], q, r.priority, tmp);
      AddUp(Taken(queue[..n], quotas[..n], k), a * quotas[n], tmp, q, Weight(queue[..n], k), b * r.priority);
    }
  }

  lemma InitWithin(queue: seq<Request>, quotas: seq<int>, k: nat, q: int, tmp: int)
    requires |queue| == |quotas| && tmp > 0 && queue != [] && WithinShares(queue, quotas, k, q, tmp)
    ensures WithinShares(queue[..|queue| - 1], quotas[..|queue| - 1], k, q, tmp)
  {
    var n := |queue| - 1;
    forall i | 0 <= i < n
      ensures WithinShare(queue[..n][i], quotas[..n][i], k, q, tmp)
    {
      assert WithinShare(queue[i], quotas[i], k, q, tmp);
    }
  }

  lemma AddUp(x: int, y: int, tmp: int, q: int, v: int, w: int)
    requires x * tmp <= q * v && y * tmp <= q * w
    ensures (x + y) * tmp <= q * (v + w)
  {
  }

  /** The quotas handed out through a channel in one round sum to at most what it
      distributes, because its tmp is the sum of the priorities that wait for it. */
  lemma ChannelNeverGivesTooMuch(queue: seq<Request>, quotas: seq<int>, k: nat, q: int, tmp: int)
    requires |queue| == |quotas| && tmp > 0 && q >= 0 && tmp == Weight(queue, k)
    requires WithinShares(queue, quotas, k, q, tmp)
    ensures Taken(queue, quotas, k) <= q
  {
    TakenBound(queue, quotas, k, q, tmp);
    DivideBack(Taken(queue, quotas, k), q, tmp);
  }

  lemma DivideBack(x: int, q: int, t: int)
    requires t > 0 && x * t <= q * t
    ensures x <= q
  {
    if x > q {
      Gap(x, q, t);
    }
  }

  lemma Gap(x: int, q: int, t: int)
    requires t > 0 && x >= q + 1
    ensures x * t >= q * t + t
  {
    Times(q + 1, x, t);
    assert (q + 1) * t == q * t + t;
  }

  /** The share of a request fits an int: its priority is part of the sum. */
  lemma ShareFits(q: int, p: int, tmp: int)
    requires 0 <= q <= INF && 0 < p <= tmp
    ensures 0 <= q * p / tmp <= q && ToInt(q * p / tmp) == q * p / tmp
  {
    ShareIsFloor(q, p, tmp);
    Positive(q, p);
    Times(p, tmp, q);
    assert p * q == q * p && tmp * q == q * tmp;
    DivideBack(q * p / tmp, q, tmp);
    NonNegative(q * p, tmp);
    ToIntIsExactIff(q * p / tmp);
  }

  lemma NonNegative(x: int, d: int)
    requires x >= 0 && d > 0
    ensures x / d >= 0
  {
  }

  // ----- what a request may do to the pool -----

  predicate ChannelsIn(pool: seq<Channel>, r: Request) {
    forall j :: 0 <= j < |r.channels| ==> r.channels[j] < |pool|
  }

  /** Taking an amount changes nothing but the quota of the channels of the request, once
      for every time a channel is among them. */
  lemma {:induction false} UseAt(pool: seq<Channel>, r: Request, n: nat, amount: int, k: nat)
    requires n <= |r.channels| && ChannelsIn(pool, r) && k < |pool|
    ensures var c := Use(pool, r, n, amount)[k];
      c == if pool[k].limit == 0 then pool[k]
           else pool[k].(quotaLeft := pool[k].quotaLeft - Uses(r.channels, n, k) * amount)
    decreases n
  {
    if n > 0 {
      UseAt(pool, r, n - 1, amount, k);
      OneMoreUse(Uses(r.channels, n - 1, k), amount);
    }
  }

  lemma OneMoreUse(n: int, amount: int)
    ensures (n + 1) * amount == n * amount + amount
  {
  }

  /** The channels of a request can be shared out. */
  predicate Shareable(pool: seq<Channel>, r: Request) {
    && ChannelsIn(pool, r) && r.priority > 0 && r.granted < r.requestSize
    && forall j :: 0 <= j < |r.channels| ==> ShareableAt(pool[r.channels[j]], r.priority)
  }

  predicate ShareableAt(c: Channel, priority: int) {
    c.tmp >= priority && (c.limit != 0 ==> 0 <= c.distributeQuota <= INF)
  }

  /** What a request gets is not negative, at most what it asks for, and at most its share of
      every limited channel it is assigned from. */
  lemma {:induction false} QuotaBounds(pool: seq<Channel>, r: Request, n: nat, k: nat)
    requires Shareable(pool, r) && n <= |r.channels|
    ensures 0 <= Quota(pool, r, n) <= r.requestSize - r.granted
    ensures k < |pool| && pool[k].limit != 0 && Uses(r.channels, n, k) > 0 ==>
      pool[k].tmp > 0 && Quota(pool, r, n) <= pool[k].distributeQuota * r.priority / pool[k].tmp
    decreases n
  {
    if n > 0 {
      QuotaBounds(pool, r, n - 1, k);
      var c := pool[r.channels[n - 1]];
      assert ShareableAt(c, r.priority);
      if c.limit != 0 {
        ShareFits(c.distributeQuota, r.priority, c.tmp);
      }
    }
  }

  /** The quota does not depend on what was taken from the channels before. */
  lemma {:induction false} QuotaIsStable(a: seq<Channel>, b: seq<Channel>, r: Request, n: nat)
    requires n <= |r.channels| && |a| == |b| && ChannelsIn(a, r)
    requires forall k :: 0 <= k < |a| ==> SameShares(a[k], b[k])
    requires forall k :: 0 <= k < |a| ==> a[k].tmp >= 0
    requires forall k :: 0 <= k < |b| ==> b[k].tmp >= 0
    ensures Quota(a, r, n) == Quota(b, r, n)
    decreases n
  {
    if n > 0 {
      QuotaIsStable(a, b, r, n - 1);
      assert SameShares(a[r.channels[n - 1]], b[r.channels[n - 1]]);
    }
  }

  predicate SameShares(a: Channel, b: Channel) {
    b == a.(quotaLeft := b.quotaLeft)
  }

  // ----- queues -----

  /** The bytes the requests of a queue still wait for. */
  function Pending(queue: seq<Request>): int {
    if queue == [] then 0
    else Pending(queue[..|queue| - 1]) + (queue[|queue| - 1].requestSize - queue[|queue| - 1].granted)
  }

  /** How many requests of a peer are in a queue. */
  function OfPeer(queue: seq<Request>, peer: nat): nat {
    if queue == [] then 0 else OfPeer(queue[..|queue| - 1], peer) + (if queue[|queue| - 1].peer == peer then 1 else 0)
  }

  lemma {:induction false} QueuesAdd(a: seq<Request>, b: seq<Request>, peer: nat, k: nat)
    ensures Pending(a + b) == Pending(a) + Pending(b)
    ensures OfPeer(a + b, peer) == OfPeer(a, peer) + OfPeer(b, peer)
    ensures Weight(a + b, k) == Weight(a, k) + Weight(b, k)
    decreases |b|
  {
    if b == [] {
      assert a + b == a;
    } else {
      assert (a + b)[..|a + b| - 1] == a + b[..|b| - 1];
      QueuesAdd(a, b[..|b| - 1], peer, k);
    }
  }

  lemma OneRequest(r: Request, peer: nat, k: nat)
    ensures Pending([r]) == r.requestSize - r.granted
    ensures OfPeer([r], peer) == if r.peer == peer then 1 else 0
    ensures Weight([r], k) == Uses(r.channels, |r.channels|, k) * r.priority
  {
    assert [r][..0] == [];
  }
}
