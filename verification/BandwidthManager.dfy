/** bandwidth_manager: the queue of requests that wait for bandwidth. */
module BandwidthManager {
  import opened Bandwidth

  /** A limited channel got its quota back. */
  predicate Refunded(a: Channel, b: Channel, amount: int) {
    b.limit == a.limit && b.quotaLeft == a.quotaLeft + if a.limit == 0 then 0 else amount
  }

  // ----- the requests that go and those that stay -----

  /** The requests of connections that are still up, and those of the others. */
  function Staying(queue: seq<Request>, gone: set<nat>): (r: seq<Request>)
    ensures forall i :: 0 <= i < |r| ==> r[i] in queue
  {
    if queue == [] then []
    else
      Staying(queue[..|queue| - 1], gone)
      + (if queue[|queue| - 1].peer in gone then [] else [queue[|queue| - 1]])
  }

  function Leaving(queue: seq<Request>, gone: set<nat>): (r: seq<Request>)
    ensures forall i :: 0 <= i < |r| ==> r[i] in queue
  {
    if queue == [] then []
    else
      Leaving(queue[..|queue| - 1], gone)
      + (if queue[|queue| - 1].peer in gone then [queue[|queue| - 1]] else [])
  }

  /** Their bandwidth is taken back. */
  function Emptied(queue: seq<Request>): (r: seq<Request>)
    ensures |r| == |queue|
    ensures forall i :: 0 <= i < |r| ==> r[i] == queue[i].(granted := 0)
  {
    if queue == [] then [] else Emptied(queue[..|queue| - 1]) + [queue[|queue| - 1].(granted := 0)]
  }

  /** What the requests of a queue give back to channel k. */
  function Refund(queue: seq<Request>, k: nat): int {
    if queue == [] then 0
    else
      var r := queue[|queue| - 1];
      Refund(queue[..|queue| - 1], k) + Uses(r.channels, |r.channels|, k) * r.granted
  }

  /** A request after it got its quota. */
  function Served(r: Request, quota: int): Request {
    r.(granted := r.granted + quota, ttl := r.ttl - 1)
  }

  /** It is delivered when it is complete, or when it waited long enough and got something. */
  predicate Ready(r: Request) {
    r.granted == r.requestSize || (r.ttl <= 0 && r.granted > 0)
  }

  /** A request of the queue. */
  predicate RequestOk(r: Request, channels: nat) {
    && r.priority > 0 && 0 <= r.granted < r.requestSize
    && |r.channels| <= MAX_CHANNELS
    && forall j :: 0 <= j < |r.channels| ==> r.channels[j] < channels
  }

  predicate QueueOk(queue: seq<Request>, channels: nat) {
    forall i :: 0 <= i < |queue| ==> RequestOk(queue[i], channels)
  }

  predicate PoolOk(pool: seq<Channel>) {
    forall k :: 0 <= k < |pool| ==> LimitOk(pool[k]) && pool[k].tmp >= 0
  }

  /** What a delivery may hold. */
  predicate DeliveryOk(r: Request) {
    0 <= r.granted <= r.requestSize
  }

  predicate DeliveriesOk(ds: seq<Request>) {
    forall i :: 0 <= i < |ds| ==> DeliveryOk(ds[i])
  }

  lemma ServedIsOk(r: Request, quota: int, channels: nat)
    requires RequestOk(r, channels) && 0 <= quota <= r.requestSize - r.granted
    ensures var s := Served(r, quota);
      && DeliveryOk(s) && (!Ready(s) ==> RequestOk(s, channels))
      && (s.requestSize - s.granted) + quota == r.requestSize - r.granted
  {
  }

  lemma {:induction false} Insert(a: seq<Request>, r: Request, b: seq<Request>, peer: nat)
    ensures Pending(a + [r] + b) == Pending(a + b) + (r.requestSize - r.granted)
    ensures OfPeer(a + [r] + b, peer) == OfPeer(a + b, peer) + (if r.peer == peer then 1 else 0)
  {
    hide Pending, OfPeer, Weight;
    QueuesAdd(a + [r], b, peer, 0);
    QueuesAdd(a, [r], peer, 0);
    QueuesAdd(a, b, peer, 0);
    OneRequest(r, peer, 0);
  }

  /** The place of a request in the queue. */
  lemma SplitAt(queue: seq<Request>, i: nat, peer: nat)
    requires i < |queue|
    ensures var rest := queue[..i] + queue[i + 1..];
      && Pending(queue) == Pending(rest) + (queue[i].requestSize - queue[i].granted)
      && OfPeer(queue, peer) == OfPeer(rest, peer) + (if queue[i].peer == peer then 1 else 0)
  {
    hide Pending, OfPeer;
    assert queue == queue[..i] + [queue[i]] + queue[i + 1..];
    Insert(queue[..i], queue[i], queue[i + 1..], peer);
  }

  lemma Replace(queue: seq<Request>, i: nat, r: Request, peer: nat)
    requires i < |queue| && r.peer == queue[i].peer
    ensures Pending(queue[i := r]) - (r.requestSize - r.granted) == Pending(queue) - (queue[i].requestSize - queue[i].granted)
    ensures OfPeer(queue[i := r], peer) == OfPeer(queue, peer)
  {
    hide Pending, OfPeer;
    SplitAt(queue, i, peer);
    SplitAt(queue[i := r], i, peer);
    assert queue[i := r][..i] == queue[..i] && queue[i := r][i + 1..] == queue[i + 1..];
  }

  // ----- the channels that make a request wait -----

  /** The channels with quota to spare are charged for a block at once; the first n of the
      list were asked. */
  function Charged(pool: seq<Channel>, blk: int, chans: seq<nat>, n: nat): (p: seq<Channel>)
    requires n <= |chans| && forall j :: 0 <= j < |chans| ==> chans[j] < |pool|
    ensures |p| == |pool|
  {
    if n == 0 then pool
    else
      var p := Charged(pool, blk, chans, n - 1);
      var c := p[chans[n - 1]];
      if NeedsQueueing(c, blk) then p else p[chans[n - 1] := c.(quotaLeft := c.quotaLeft - blk)]
  }

  /** The others hold it back. */
  function Held(pool: seq<Channel>, blk: int, chans: seq<nat>, n: nat): seq<nat>
    requires n <= |chans| && forall j :: 0 <= j < |chans| ==> chans[j] < |pool|
  {
    if n == 0 then []
    else
      Held(pool, blk, chans, n - 1)
      + (if NeedsQueueing(Charged(pool, blk, chans, n - 1)[chans[n - 1]], blk) then [chans[n - 1]] else [])
  }

  lemma NothingHeld(pool: seq<Channel>, blk: int, chans: seq<nat>)
    requires chans == []
    ensures Held(pool, blk, chans, 0) == [] && Charged(pool, blk, chans, 0) == pool
  {
  }

  lemma {:induction false} HeldOnlyGiven(pool: seq<Channel>, blk: int, chans: seq<nat>, n: nat)
    requires n <= |chans| && forall j :: 0 <= j < |chans| ==> chans[j] < |pool|
    ensures |Held(pool, blk, chans, n)| <= n
    ensures forall j :: 0 <= j < |Held(pool, blk, chans, n)| ==> Held(pool, blk, chans, n)[j] < |pool|
    decreases n
  {
    if n > 0 {
      HeldOnlyGiven(pool, blk, chans, n - 1);
    }
  }

  /** Different channels are asked independently: the block waits for exactly those that
      would be left with less than a second of quota, and every other one is charged for it
      once. So it passes at once exactly if none of them would be. */
  lemma {:induction false} HeldExactly(pool: seq<Channel>, blk: int, chans: seq<nat>, n: nat)
    requires n <= |chans| && forall j :: 0 <= j < |chans| ==> chans[j] < |pool|
    requires Distinct(chans)
    ensures forall k :: k in Held(pool, blk, chans, n) <==> k in chans[..n] && pool[k].quotaLeft - blk < pool[k].limit
    ensures forall k :: 0 <= k < |pool| ==>
      Charged(pool, blk, chans, n)[k]
        == if k in chans[..n] && pool[k].quotaLeft - blk >= pool[k].limit then pool[k].(quotaLeft := pool[k].quotaLeft - blk) else pool[k]
    decreases n
  {
    if n > 0 {
      HeldExactly(pool, blk, chans, n - 1);
      assert chans[..n] == chans[..n - 1] + [chans[n - 1]];
      assert chans[n - 1] !in chans[..n - 1];
    }
  }

  class Manager {
    var pool: seq<Channel>
    var queue: seq<Request>
    var queuedBytes: int
    var aborted: bool
    // the requests as they were when assign_bandwidth() of their peer was called
    var deliveries: seq<Request>
    // the peers whose requests were put in the queue
    ghost var accepted: seq<Request>

    constructor (pool: seq<Channel>)
      requires PoolOk(pool)
      ensures Valid() && this.pool == pool && queue == [] && deliveries == [] && !aborted
    {
      this.pool := pool;
      queue, queuedBytes, aborted, deliveries, accepted := [], 0, false, [], [];
    }

    /** The count of queued bytes is that of the queue; a request that waits is not complete;
        and every request that was accepted is in the queue or was delivered, once, with no
        more than it asked for. */
    ghost predicate Valid()
      reads this
    {
      && PoolOk(pool)
      && QueueOk(queue, |pool|)
      && queuedBytes == Pending(queue)
      && DeliveriesOk(deliveries)
      && forall p :: OfPeer(accepted, p) == OfPeer(queue, p) + OfPeer(deliveries, p)
    }

    // ----- asking for bandwidth -----

    /** The loop over the channels of a request. */
    method PickChannels(blk: int, chans: seq<nat>) returns (kept: seq<nat>)
      requires PoolOk(pool) && forall j :: 0 <= j < |chans| ==> chans[j] < |pool|
      modifies this`pool
      ensures PoolOk(pool) && |pool| == |old(pool)|
      ensures pool == Charged(old(pool), blk, chans, |chans|) && kept == Held(old(pool), blk, chans, |chans|)
    {
      kept := [];
      for i := 0 to |chans|
        invariant PoolOk(pool) && |pool| == |old(pool)|
        invariant pool == Charged(old(pool), blk, chans, i) && kept == Held(old(pool), blk, chans, i)
      {
        var c := pool[chans[i]];
        if NeedsQueueing(c, blk) {
          kept := kept + [chans[i]];
        } else {
          pool := pool[chans[i] := c.(quotaLeft := c.quotaLeft - blk)];
        }
      }
    }

    /** Returns what can be had at once: the whole block if no channel makes it wait, and 0
        if it is queued for those that do (or the manager was closed). The others are
        charged either way. */
    method RequestBandwidth(peer: nat, blk: int, priority: int, chans: seq<nat>) returns (n: int)
      requires Valid() && blk > 0 && priority > 0
      requires OfPeer(queue, peer) == 0 && |chans| <= MAX_CHANNELS
      requires forall j :: 0 <= j < |chans| ==> chans[j] < |pool|
      modifies this
      ensures Valid() && aborted == old(aborted) && deliveries == old(deliveries)
      ensures old(aborted) ==> n == 0 && pool == old(pool) && queue == old(queue)
      ensures !old(aborted) ==>
        var held := Held(old(pool), blk, chans, |chans|);
        && pool == Charged(old(pool), blk, chans, |chans|)
        && n == (if held == [] then blk else 0)
        && queue == (if held == [] then old(queue) else old(queue) + [Request(peer, priority, 0, blk, 20, held)])
        && queuedBytes == old(queuedBytes) + blk - n
        && OfPeer(queue, peer) == (if held == [] then 0 else 1)
    {
      hide Pending, OfPeer, Charged, Held;
      if aborted {
        return 0;
      }
      if |chans| == 0 {
        NothingHeld(pool, blk, chans);
        return blk;
      }
      HeldOnlyGiven(pool, blk, chans, |chans|);
      var kept := PickChannels(blk, chans);
      if |kept| == 0 {
        return blk;
      }
      var r := Request(peer, priority, 0, blk, 20, kept);
      forall p: nat
        ensures OfPeer(queue + [r], p) == OfPeer(queue, p) + (if p == peer then 1 else 0)
        ensures OfPeer(accepted + [r], p) == OfPeer(accepted, p) + (if p == peer then 1 else 0)
        ensures Pending(queue + [r]) == Pending(queue) + blk
      {
        QueuesAdd(queue, [r], p, 0);
        QueuesAdd(accepted, [r], p, 0);
        OneRequest(r, p, 0);
      }
      queuedBytes := queuedBytes + blk;
      queue := queue + [r];
      accepted := accepted + [r];
      n := 0;
    }

    // ----- one tick -----

    /** Gives a request's quota back to all its channels. */
    method ReturnAll(r: Request)
      requires PoolOk(pool) && ChannelsIn(pool, r)
      modifies this`pool
      ensures |pool| == |old(pool)| && pool == Use(old(pool), r, |r.channels|, -r.granted)
      ensures PoolOk(pool)
    {
      for j := 0 to |r.channels|
        invariant |pool| == |old(pool)| && pool == Use(old(pool), r, j, -r.granted) && PoolOk(pool)
      {
        var k := r.channels[j];
        pool := pool[k := ReturnQuota(pool[k], r.granted)];
      }
    }

    /** Resets the priorities summed up at the channels of a request. */
    method ResetChannels(r: Request)
      requires PoolOk(pool) && ChannelsIn(pool, r)
      modifies this`pool
      ensures |pool| == |old(pool)| && PoolOk(pool)
      ensures forall k :: 0 <= k < |pool| ==>
        pool[k] == if k in r.channels then old(pool)[k].(tmp := 0) else old(pool)[k]
      ensures Clear(pool, r)
    {
      for j := 0 to |r.channels|
        invariant |pool| == |old(pool)| && PoolOk(pool)
        invariant forall k :: 0 <= k < |pool| ==>
          pool[k] == if k in r.channels[..j] then old(pool)[k].(tmp := 0) else old(pool)[k]
      {
        var k := r.channels[j];
        assert r.channels[..j + 1] == r.channels[..j] + [k];
        pool := pool[k := pool[k].(tmp := 0)];
      }
      assert r.channels[..|r.channels|] == r.channels;
    }

    /** The first loop of update_quotas(): the requests of connections that went away leave
        the queue with nothing, and what they had is given back to their channels. */
    method TakeOut(gone: set<nat>) returns (done: seq<Request>)
      requires PoolOk(pool) && QueueOk(queue, |pool|) && queuedBytes == Pending(queue)
      modifies this`pool, this`queue, this`queuedBytes
      ensures |pool| == |old(pool)| && PoolOk(pool) && QueueOk(queue, |pool|)
      ensures queue == Staying(old(queue), gone) && done == Emptied(Leaving(old(queue), gone))
      ensures queuedBytes == Pending(queue)
      ensures forall i :: 0 <= i < |queue| ==> Clear(pool, queue[i])
      ensures forall k :: 0 <= k < |pool| ==> Refunded(old(pool)[k], pool[k], Refund(Leaving(old(queue), gone), k))
      ensures forall p :: OfPeer(old(queue), p) == OfPeer(queue, p) + OfPeer(done, p)
    {
      hide Pending, OfPeer, Weight, Staying, Leaving, Emptied, Use, Uses, Refund, Clear;
      ghost var was := queue;
      done := [];
      var i := 0;
      ghost var n := 0;
      NothingOut(was, gone);
      while i < |queue|
        invariant 0 <= i <= n <= |was| && i <= |queue| && queue[i..] == was[n..]
        invariant |pool| == |old(pool)| && PoolOk(pool) && QueueOk(queue, |pool|)
        invariant queue[..i] == Staying(was[..n], gone) && done == Emptied(Leaving(was[..n], gone))
        invariant queuedBytes == Pending(queue)
        invariant forall j :: 0 <= j < i ==> Clear(pool, queue[..i][j])
        invariant forall k :: 0 <= k < |pool| ==> Refunded(old(pool)[k], pool[k], Refund(Leaving(was[..n], gone), k))
        invariant forall p :: OfPeer(was, p) == OfPeer(queue, p) + OfPeer(done, p)
        decreases |queue| - i
      {
        var r := queue[i];
        assert r == was[n] && was[n..][1..] == was[n + 1..] && queue[i..][1..] == queue[i + 1..];
        assert RequestOk(r, |pool|);
        OneMoreOut(was, gone, n);
        if r.peer in gone {
          TakeOne(queue, i, done);
          queuedBytes := queuedBytes - (r.requestSize - r.granted);
          ghost var before := pool;
          ReturnAll(r);
          Returned(before, r);
          StillClear(before, pool, queue[..i]);
          done := done + [r.(granted := 0)];
          ghost var q := queue;
          queue := queue[..i] + queue[i + 1..];
          assert queue[..i] == q[..i] && queue[i..] == q[i + 1..];
        } else {
          assert queue[..i + 1] == queue[..i] + [r];
          ghost var before := pool;
          ResetChannels(r);
          StillClear(before, pool, queue[..i]);
          i := i + 1;
        }
        n := n + 1;
      }
      assert was[..n] == was && queue[..i] == queue;
    }

    static lemma StillClear(a: seq<Channel>, b: seq<Channel>, queue: seq<Request>)
      requires |a| == |b| && forall k :: 0 <= k < |a| ==> b[k].tmp == a[k].tmp || b[k].tmp == 0
      requires forall j :: 0 <= j < |queue| ==> Clear(a, queue[j])
      ensures forall j :: 0 <= j < |queue| ==> Clear(b, queue[j])
    {
    }

    static lemma NothingOut(was: seq<Request>, gone: set<nat>)
      ensures Staying(was[..0], gone) == [] && Emptied(Leaving(was[..0], gone)) == []
      ensures forall k :: Refund(Leaving(was[..0], gone), k) == 0
      ensures forall p :: OfPeer([], p) == 0
    {
    }

    static lemma OneMoreOut(was: seq<Request>, gone: set<nat>, n: nat)
      requires n < |was|
      ensures Staying(was[..n + 1], gone) == if was[n].peer in gone then Staying(was[..n], gone) else Staying(was[..n], gone) + [was[n]]
      ensures Emptied(Leaving(was[..n + 1], gone))
        == if was[n].peer in gone then Emptied(Leaving(was[..n], gone)) + [was[n].(granted := 0)] else Emptied(Leaving(was[..n], gone))
      ensures forall k ::
        Refund(Leaving(was[..n + 1], gone), k) == Refund(Leaving(was[..n], gone), k) +
        (if was[n].peer in gone then Uses(was[n].channels, |was[n].channels|, k) * was[n].granted else 0)
    {
      var l := Leaving(was[..n], gone);
      assert was[..n + 1][..n] == was[..n];
      assert Staying(was[..n], gone) + [] == Staying(was[..n], gone) && l + [] == l;
      if was[n].peer in gone {
        assert (l + [was[n]])[..|l|] == l;
      }
    }

    /** A request moves from the queue to the ones that are done. */
    static lemma TakeOne(queue: seq<Request>, i: nat, done: seq<Request>)
      requires i < |queue|
      ensures var rest := queue[..i] + queue[i + 1..];
        && Pending(rest) == Pending(queue) - (queue[i].requestSize - queue[i].granted)
        && forall d: Request, p :: d.peer == queue[i].peer ==>
             OfPeer(rest, p) + OfPeer(done + [d], p) == OfPeer(queue, p) + OfPeer(done, p)
    {
      hide Pending, OfPeer, Weight;
      SplitAt(queue, i, 0);
      forall d: Request, p: nat | d.peer == queue[i].peer
        ensures OfPeer(queue[..i] + queue[i + 1..], p) + OfPeer(done + [d], p) == OfPeer(queue, p) + OfPeer(done, p)
      {
        SplitAt(queue, i, p);
        QueuesAdd(done, [d], p, 0);
        OneRequest(d, p, 0);
      }
    }

    static lemma Returned(pool: seq<Channel>, r: Request)
      requires ChannelsIn(pool, r)
      ensures forall k :: 0 <= k < |pool| ==>
        && Refunded(pool[k], Use(pool, r, |r.channels|, -r.granted)[k], Uses(r.channels, |r.channels|, k) * r.granted)
        && Use(pool, r, |r.channels|, -r.granted)[k].tmp == pool[k].tmp
    {
      hide Use, Uses;
      forall k | 0 <= k < |pool|
        ensures Refunded(pool[k], Use(pool, r, |r.channels|, -r.granted)[k], Uses(r.channels, |r.channels|, k) * r.granted)
        ensures Use(pool, r, |r.channels|, -r.granted)[k].tmp == pool[k].tmp
      {
        UseAt(pool, r, |r.channels|, -r.granted, k);
        assert Uses(r.channels, |r.channels|, k) * -r.granted == -(Uses(r.channels, |r.channels|, k) * r.granted);
      }
    }

    /** Adds a request's priority to each of its channels; channels seen for the first time
        are listed. */
    method AddPriority(r: Request, chans: seq<nat>) returns (chans': seq<nat>)
      requires PoolOk(pool) && ChannelsIn(pool, r) && r.priority > 0
      requires forall k :: k in r.channels ==> (k in chans <==> pool[k].tmp > 0) && pool[k].tmp >= 0
      requires Distinct(chans)
      modifies this`pool
      ensures |pool| == |old(pool)| && PoolOk(pool)
      ensures forall k :: 0 <= k < |pool| ==>
        pool[k] == old(pool)[k].(tmp := old(pool)[k].tmp + Uses(r.channels, |r.channels|, k) * r.priority)
      ensures Distinct(chans') && forall k :: k in chans' <==> k in chans || k in r.channels
    {
      chans' := chans;
      for j := 0 to |r.channels|
        invariant |pool| == |old(pool)| && PoolOk(pool)
        invariant forall k :: 0 <= k < |pool| ==>
          pool[k] == old(pool)[k].(tmp := old(pool)[k].tmp + Uses(r.channels, j, k) * r.priority)
        invariant forall k :: k in r.channels ==> (k in chans' <==> pool[k].tmp > 0) && pool[k].tmp >= 0
        invariant Distinct(chans') && forall k :: k in chans' <==> k in chans || k in r.channels[..j]
      {
        var k := r.channels[j];
        assert r.channels[..j + 1] == r.channels[..j] + [k];
        if pool[k].tmp == 0 {
          chans' := chans' + [k];
        }
        OneMoreUse(Uses(r.channels, j, k), r.priority);
        pool := pool[k := pool[k].(tmp := pool[k].tmp + r.priority)];
      }
      assert r.channels[..|r.channels|] == r.channels;
    }

    /** The second loop: tmp becomes the sum of the priorities that wait for a channel. */
    method SumPriorities() returns (chans: seq<nat>)
      requires PoolOk(pool) && QueueOk(queue, |pool|)
      requires forall i :: 0 <= i < |queue| ==> Clear(pool, queue[i])
      modifies this`pool
      ensures |pool| == |old(pool)| && PoolOk(pool)
      ensures forall k :: 0 <= k < |pool| ==> pool[k] == old(pool)[k].(tmp := old(pool)[k].tmp + Weight(queue, k))
      ensures Distinct(chans) && forall k :: k in chans <==> WaitedFor(queue, k)
    {
      hide Weight, Uses;
      chans := [];
      NoWeight(queue);
      for i := 0 to |queue|
        invariant |pool| == |old(pool)| && PoolOk(pool)
        invariant forall k :: 0 <= k < |pool| ==> pool[k] == old(pool)[k].(tmp := old(pool)[k].tmp + Weight(queue[..i], k))
        invariant Distinct(chans) && forall k :: k in chans <==> WaitedFor(queue[..i], k)
      {
        assert RequestOk(queue[i], |pool|);
        forall k | k in queue[i].channels
          ensures (k in chans <==> pool[k].tmp > 0) && pool[k].tmp >= 0
        {
          assert Clear(old(pool), queue[i]);
          WeightIsPositiveIff(queue[..i], k, |pool|);
        }
        chans := AddPriority(queue[i], chans);
        OneMoreWeight(queue, i);
      }
      assert queue[..|queue|] == queue;
    }

    static lemma NoWeight(queue: seq<Request>)
      ensures forall k :: Weight(queue[..0], k) == 0 && !WaitedFor(queue[..0], k)
    {
    }

    static lemma OneMoreWeight(queue: seq<Request>, i: nat)
      requires i < |queue|
      ensures forall k ::
        Weight(queue[..i + 1], k) == Weight(queue[..i], k) + Uses(queue[i].channels, |queue[i].channels|, k) * queue[i].priority
      ensures forall k :: WaitedFor(queue[..i + 1], k) <==> WaitedFor(queue[..i], k) || k in queue[i].channels
    {
      assert queue[..i + 1][..i] == queue[..i];
      forall k
        ensures WaitedFor(queue[..i + 1], k) <==> WaitedFor(queue[..i], k) || k in queue[i].channels
      {
        if k in queue[i].channels {
          assert k in queue[..i + 1][i].channels;
        }
        if WaitedFor(queue[..i], k) {
          var j :| 0 <= j < i && k in queue[..i][j].channels;
          assert k in queue[..i + 1][j].channels;
        }
      }
    }

    /** The third loop tops up the channels that are waited for, each once. */
    method TopUp(chans: seq<nat>, dt: nat)
      requires PoolOk(pool) && Distinct(chans) && forall k :: k in chans ==> k < |pool|
      modifies this`pool
      ensures |pool| == |old(pool)| && PoolOk(pool)
      ensures forall k :: 0 <= k < |pool| ==>
        pool[k] == if k in chans then UpdateQuota(old(pool)[k], dt) else old(pool)[k]
    {
      for j := 0 to |chans|
        invariant |pool| == |old(pool)| && PoolOk(pool)
        invariant forall k :: 0 <= k < |pool| ==>
          pool[k] == if k in chans[..j] then UpdateQuota(old(pool)[k], dt) else old(pool)[k]
      {
        var k := chans[j];
        assert k in chans && chans[..j + 1] == chans[..j] + [k] && k !in chans[..j];
        pool := pool[k := UpdateQuota(pool[k], dt)];
      }
      assert chans[..|chans|] == chans;
    }

    // ----- handing out -----

    /** assign_bandwidth(): the loop over the limits, then the loop that takes the quota. */
    method AssignBandwidth(r: Request) returns (quota: int)
      requires PoolOk(pool) && Shareable(pool, r)
      modifies this`pool
      ensures quota == Quota(old(pool), r, Assigning(r))
      ensures |pool| == |old(pool)| && pool == Use(old(pool), r, Assigning(r), quota) && PoolOk(pool)
    {
      quota := r.requestSize - r.granted;
      for j := 0 to Assigning(r)
        invariant quota == Quota(pool, r, j)
      {
        var c := pool[r.channels[j]];
        assert ShareableAt(c, r.priority);
        if c.limit != 0 && c.tmp != 0 {
          quota := Min(ToInt(c.distributeQuota * r.priority / c.tmp), quota);
        }
      }
      for j := 0 to Assigning(r)
        invariant |pool| == |old(pool)| && pool == Use(old(pool), r, j, quota) && PoolOk(pool)
      {
        var k := r.channels[j];
        pool := pool[k := UseQuota(pool[k], quota)];
      }
    }

    /** The fourth loop: every request gets its share, and leaves the queue when it is ready. */
    method Distribute() returns (done: seq<Request>, ghost quotas: seq<int>)
      requires PoolOk(pool) && QueueOk(queue, |pool|) && queuedBytes == Pending(queue)
      requires forall i :: 0 <= i < |queue| ==> Shareable(pool, queue[i])
      modifies this`pool, this`queue, this`queuedBytes
      ensures AreQuotas(old(pool), old(queue), quotas)
      ensures |pool| == |old(pool)| && PoolOk(pool) && QueueOk(queue, |pool|)
      ensures queue == Remain(old(queue), quotas) && done == Finished(old(queue), quotas)
      ensures queuedBytes == Pending(queue) && DeliveriesOk(done)
      ensures forall p :: OfPeer(old(queue), p) == OfPeer(queue, p) + OfPeer(done, p)
      ensures forall k :: 0 <= k < |pool| ==> Refunded(old(pool)[k], pool[k], -Taken(old(queue), quotas, k))
    {
      hide Pending, OfPeer, Weight, Use, Uses, Quota, Shareable, Remain, Finished, Taken, AreQuotas, SameShares, Ready, RequestOk, DeliveryOk;
      ghost var was, pool0 := queue, pool;
      done, quotas := [], [];
      var i := 0;
      ghost var n := 0;
      NothingServed(was, pool0);
      while i < |queue|
        invariant 0 <= i <= n <= |was| && i <= |queue| && queue[i..] == was[n..]
        invariant |pool| == |pool0| && PoolOk(pool) && QueueOk(queue, |pool|)
        invariant |quotas| == n && AreQuotas(pool0, was[..n], quotas)
        invariant queue[..i] == Remain(was[..n], quotas) && done == Finished(was[..n], quotas)
        invariant queuedBytes == Pending(queue) && DeliveriesOk(done)
        invariant forall p :: OfPeer(was, p) == OfPeer(queue, p) + OfPeer(done, p)
        invariant forall k :: 0 <= k < |pool| ==> SameShares(pool0[k], pool[k])
        invariant forall k :: 0 <= k < |pool| ==> Refunded(pool0[k], pool[k], -Taken(was[..n], quotas, k))
        decreases |queue| - i
      {
        var r := queue[i];
        assert r == was[n] && was[n..][1..] == was[n + 1..] && queue[i..][1..] == queue[i + 1..];
        assert RequestOk(r, |pool|);
        ghost var before := pool;
        StillShareable(pool0, pool, r);
        QuotaIsStable(pool0, pool, r, Assigning(r));
        QuotaBounds(pool, r, Assigning(r), 0);
        var a := AssignBandwidth(r);
        ServedIsOk(r, a, |pool|);
        OneMoreServed(was, quotas, n, a);
        QuotaTaken(pool0, before, was, quotas, n, a);
        OneMoreQuota(pool0, was, quotas, n, a);
        quotas := quotas + [a];
        i, done := Settle(i, Served(r, a), a, done);
        n := n + 1;
      }
      assert was[..n] == was && queue[..i] == queue;
    }

    /** The rest of a round: request i, which became r, leaves the queue if it is ready. */
    method Settle(i: nat, r: Request, quota: int, done: seq<Request>) returns (next: nat, done': seq<Request>)
      requires QueueOk(queue, |pool|) && queuedBytes == Pending(queue) && DeliveriesOk(done)
      requires i < |queue| && r.peer == queue[i].peer
      requires (r.requestSize - r.granted) + quota == queue[i].requestSize - queue[i].granted
      requires DeliveryOk(r) && (!Ready(r) ==> RequestOk(r, |pool|))
      modifies this`queue, this`queuedBytes
      ensures QueueOk(queue, |pool|) && queuedBytes == Pending(queue) && DeliveriesOk(done')
      ensures i <= next <= i + 1 && next <= |queue|
      ensures queue[..next] == old(queue)[..i] + (if Ready(r) then [] else [r])
      ensures queue[next..] == old(queue)[i + 1..]
      ensures done' == done + (if Ready(r) then [r] else [])
      ensures forall p :: OfPeer(queue, p) + OfPeer(done', p) == OfPeer(old(queue), p) + OfPeer(done, p)
    {
      hide Pending, OfPeer, Ready, RequestOk, DeliveryOk;
      var a := quota;
      ghost var q := queue;
      Replace(queue, i, r, 0);
      SamePeers(queue, i, r);
      queue := queue[i := r];
      next, done' := i, done;
      var ready := IsReady(r);
      if ready {
        TakeOne(queue, i, done);
        a := a + (r.requestSize - r.granted);
        done' := done + [r];
        queue := queue[..i] + queue[i + 1..];
        assert queue[..i] == q[..i] + [] && queue[i..] == q[i + 1..];
      } else {
        next := i + 1;
        assert queue[..i + 1] == q[..i] + [r] && queue[i + 1..] == q[i + 1..];
      }
      queuedBytes := queuedBytes - a;
    }

    /** The test of the fourth loop. */
    static method IsReady(r: Request) returns (ready: bool)
      ensures ready <==> Ready(r)
    {
      ready := r.granted == r.requestSize || (r.ttl <= 0 && r.granted > 0);
    }

    /** Calls assign_bandwidth() of the peers of the requests that are done, last one first. */
    method Deliver(done: seq<Request>)
      requires DeliveriesOk(deliveries) && DeliveriesOk(done)
      modifies this`deliveries
      ensures deliveries == old(deliveries) + Reversed(done) && DeliveriesOk(deliveries)
      ensures forall p :: OfPeer(deliveries, p) == OfPeer(old(deliveries), p) + OfPeer(done, p)
    {
      hide OfPeer, Pending, Weight;
      var rest := done;
      ghost var was := deliveries;
      assert was + [] == was;
      while rest != []
        invariant DeliveriesOk(deliveries) && DeliveriesOk(rest)
        invariant deliveries + Reversed(rest) == was + Reversed(done)
        decreases |rest|
      {
        var r := rest[|rest| - 1];
        rest := rest[..|rest| - 1];
        assert deliveries + ([r] + Reversed(rest)) == deliveries + [r] + Reversed(rest);
        deliveries := deliveries + [r];
      }
      assert deliveries + [] == deliveries;
      forall p: nat
        ensures OfPeer(deliveries, p) == OfPeer(was, p) + OfPeer(done, p)
      {
        QueuesAdd(was, Reversed(done), p, 0);
        PeersReversed(done, p);
      }
    }

    /** Everyone who waits gets what was handed out so far. */
    method Close()
      requires Valid()
      modifies this
      ensures Valid() && aborted && queue == [] && queuedBytes == 0
      ensures deliveries == old(deliveries) + Reversed(old(queue))
    {
      hide OfPeer, Pending, Weight;
      aborted := true;
      var all := queue;
      queue := [];
      queuedBytes := 0;
      NoRequests();
      Deliver(all);
    }

    static lemma NoRequests()
      ensures Pending([]) == 0 && forall p :: OfPeer([], p) == 0
    {
    }

    /** The four loops on a queue that is not empty. staying is the queue without the
        connections that went away, and mid the channels before they hand anything out. */
    method Tick(dt: nat, gone: set<nat>) returns (done: seq<Request>, ghost quotas: seq<int>, ghost mid: seq<Channel>)
      requires Valid()
      modifies this`pool, this`queue, this`queuedBytes
      ensures |pool| == |old(pool)| == |mid| && PoolOk(pool) && QueueOk(queue, |pool|)
      ensures queuedBytes == Pending(queue) && DeliveriesOk(done)
      ensures forall p :: OfPeer(old(queue), p) == OfPeer(queue, p) + OfPeer(done, p)
      ensures var staying := Staying(old(queue), gone);
        && AreQuotas(mid, staying, quotas)
        && queue == Remain(staying, quotas)
        && done == Emptied(Leaving(old(queue), gone)) + Finished(staying, quotas)
        && forall k :: 0 <= k < |pool| ==> Ticked(old(pool)[k], mid[k], pool[k], old(queue), staying, gone, quotas, k, dt)
    {
      hide OfPeer, Pending, Weight, Staying, Leaving, Emptied, Remain, Finished, AreQuotas, Taken, Refund, Uses, Clear, Ticked, UpdateQuota, DeliveryOk, RequestOk;
      ghost var was, pool0 := queue, pool;
      var out := TakeOut(gone);
      EmptiedIsOk(Leaving(was, gone), |pool|);
      LeavingIsOk(was, gone, |pool|);
      ghost var staying, pool1 := queue, pool;
      var chans := SumPriorities();
      ghost var pool2 := pool;
      ChannelsExist(staying, |pool|);
      TopUp(chans, dt);
      mid := pool;
      AllShareable(staying, pool1, pool2, mid, dt);
      var ready;
      ready, quotas := Distribute();
      done := out + ready;
      ghost var pool4 := pool;
      forall p: nat
        ensures OfPeer(was, p) == OfPeer(queue, p) + OfPeer(done, p)
      {
        QueuesAdd(out, ready, p, 0);
      }
      QuotasLength(mid, staying, quotas);
      forall k | 0 <= k < |pool|
        ensures Ticked(pool0[k], mid[k], pool[k], was, staying, gone, quotas, k, dt)
      {
        ClearWhereWaited(pool1, staying, k);
        ChannelTicked(was, staying, gone, quotas, pool0, pool1, pool2, mid, pool4, k, dt);
      }
    }

    /** One tick: dt are the milliseconds since the last one, at most three seconds of which
        count, and gone the peers that are disconnecting. */
    method UpdateQuotas(dt: nat, gone: set<nat>) returns (ghost quotas: seq<int>, ghost mid: seq<Channel>)
      requires Valid()
      modifies this
      ensures Valid() && aborted == old(aborted) && |pool| == |old(pool)|
      ensures old(aborted) || old(queue) == [] ==>
        pool == old(pool) && queue == old(queue) && deliveries == old(deliveries)
      ensures !old(aborted) && old(queue) != [] ==>
        var staying, ms := Staying(old(queue), gone), if dt > 3000 then 3000 else dt;
        && |mid| == |pool| && AreQuotas(mid, staying, quotas)
        && queue == Remain(staying, quotas)
        && deliveries == old(deliveries) + Reversed(Emptied(Leaving(old(queue), gone)) + Finished(staying, quotas))
        && forall k :: 0 <= k < |pool| ==> Ticked(old(pool)[k], mid[k], pool[k], old(queue), staying, gone, quotas, k, ms)
    {
      hide OfPeer, Pending, Weight, Staying, Leaving, Emptied, Remain, Finished, AreQuotas, Ticked, QueueOk, DeliveriesOk;
      quotas, mid := [], [];
      if aborted || queue == [] {
        return;
      }
      var milliseconds := dt;
      if milliseconds > 3000 {
        milliseconds := 3000;
      }
      var done;
      done, quotas, mid := Tick(milliseconds, gone);
      Deliver(done);
    }
  }

  /** No priority is summed up at the channels of a request. */
  predicate Clear(pool: seq<Channel>, r: Request) {
    forall k :: k in r.channels ==> k < |pool| && pool[k].tmp == 0
  }

  /** A list without repetition. */
  predicate Distinct(ks: seq<nat>) {
    forall i, j :: 0 <= i < j < |ks| ==> ks[i] != ks[j]
  }

  /** A request of the queue has channel k. */
  predicate WaitedFor(queue: seq<Request>, k: nat) {
    exists i :: 0 <= i < |queue| && k in queue[i].channels
  }

  /** A channel has weight exactly if a request waits for it. */
  lemma {:induction false} WeightIsPositiveIff(queue: seq<Request>, k: nat, channels: nat)
    requires QueueOk(queue, channels)
    ensures Weight(queue, k) >= 0 && (Weight(queue, k) > 0 <==> WaitedFor(queue, k))
    decreases |queue|
  {
    if queue != [] {
      var n := |queue| - 1;
      var r := queue[n];
      assert RequestOk(r, channels);
      WeightIsPositiveIff(queue[..n], k, channels);
      Manager.OneMoreWeight(queue, n);
      assert queue[..n + 1] == queue;
      UsesIfIn(r.channels, |r.channels|, k);
      assert r.channels[..|r.channels|] == r.channels;
      PositiveProduct(Uses(r.channels, |r.channels|, k), r.priority);
    }
  }

  lemma PositiveProduct(n: nat, p: int)
    requires p > 0
    ensures n * p >= 0 && (n * p > 0 <==> n > 0)
  {
  }

  /** What stays in the queue of the requests that got these quotas. */
  function Remain(queue: seq<Request>, quotas: seq<int>): seq<Request>
    requires |queue| == |quotas|
  {
    if queue == [] then []
    else
      var n := |queue| - 1;
      var r := Served(queue[n], quotas[n]);
      Remain(queue[..n], quotas[..n]) + (if Ready(r) then [] else [r])
  }

  function Finished(queue: seq<Request>, quotas: seq<int>): seq<Request>
    requires |queue| == |quotas|
  {
    if queue == [] then []
    else
      var n := |queue| - 1;
      var r := Served(queue[n], quotas[n]);
      Finished(queue[..n], quotas[..n]) + (if Ready(r) then [r] else [])
  }

  /** Every request gets the smallest of its shares. */
  ghost predicate AreQuotas(pool: seq<Channel>, queue: seq<Request>, quotas: seq<int>) {
    && |quotas| == |queue|
    && forall i :: 0 <= i < |queue| ==> IsQuota(pool, queue[i], quotas[i])
  }

  ghost predicate IsQuota(pool: seq<Channel>, r: Request, quota: int) {
    Shareable(pool, r) && quota == Quota(pool, r, Assigning(r))
  }

  lemma NothingServed(was: seq<Request>, pool: seq<Channel>)
    ensures Remain(was[..0], []) == [] && Finished(was[..0], []) == [] && AreQuotas(pool, was[..0], [])
    ensures forall k :: Taken(was[..0], [], k) == 0
    ensures forall p :: OfPeer([], p) == 0
    ensures forall k :: 0 <= k < |pool| ==> SameShares(pool[k], pool[k])
  {
  }

  lemma OneMoreServed(was: seq<Request>, quotas: seq<int>, n: nat, a: int)
    requires n < |was| && |quotas| == n
    ensures var r := Served(was[n], a);
      && Remain(was[..n + 1], quotas + [a]) == (if Ready(r) then Remain(was[..n], quotas) else Remain(was[..n], quotas) + [r])
      && Finished(was[..n + 1], quotas + [a]) == (if Ready(r) then Finished(was[..n], quotas) + [r] else Finished(was[..n], quotas))
  {
    assert was[..n + 1][..n] == was[..n] && (quotas + [a])[..n] == quotas;
    assert Remain(was[..n], quotas) + [] == Remain(was[..n], quotas);
    assert Finished(was[..n], quotas) + [] == Finished(was[..n], quotas);
  }

  lemma StillShareable(pool: seq<Channel>, now: seq<Channel>, r: Request)
    requires Shareable(pool, r) && |now| == |pool|
    requires forall k :: 0 <= k < |pool| ==> SameShares(pool[k], now[k])
    ensures Shareable(now, r) && ChannelsIn(pool, r)
    ensures forall k :: 0 <= k < |pool| ==> now[k].tmp == pool[k].tmp
  {
    forall j | 0 <= j < |r.channels|
      ensures ShareableAt(now[r.channels[j]], r.priority)
    {
      assert ShareableAt(pool[r.channels[j]], r.priority) && SameShares(pool[r.channels[j]], now[r.channels[j]]);
    }
  }

  lemma QuotaTaken(pool0: seq<Channel>, pool: seq<Channel>, was: seq<Request>, quotas: seq<int>, n: nat, a: int)
    requires n < |was| && |quotas| == n && |pool| == |pool0| && ChannelsIn(pool, was[n])
    requires forall k :: 0 <= k < |pool| ==> SameShares(pool0[k], pool[k])
    requires forall k :: 0 <= k < |pool| ==> Refunded(pool0[k], pool[k], -Taken(was[..n], quotas, k))
    ensures var now := Use(pool, was[n], Assigning(was[n]), a);
      forall k :: 0 <= k < |pool| ==>
        && SameShares(pool0[k], now[k])
        && Refunded(pool0[k], now[k], -Taken(was[..n + 1], quotas + [a], k))
  {
    hide Use, Uses, Taken;
    var now := Use(pool, was[n], Assigning(was[n]), a);
    forall k | 0 <= k < |pool|
      ensures SameShares(pool0[k], now[k]) && Refunded(pool0[k], now[k], -Taken(was[..n + 1], quotas + [a], k))
    {
      UseAt(pool, was[n], Assigning(was[n]), a, k);
      OneMoreTaken(was, quotas, n, a, k);
      assert SameShares(pool0[k], pool[k]);
    }
  }

  lemma OneMoreTaken(was: seq<Request>, quotas: seq<int>, n: nat, a: int, k: nat)
    requires n < |was| && |quotas| == n
    ensures Taken(was[..n + 1], quotas + [a], k) == Taken(was[..n], quotas, k) + Uses(was[n].channels, Assigning(was[n]), k) * a
  {
    assert was[..n + 1][..n] == was[..n] && (quotas + [a])[..n] == quotas;
  }

  lemma OneMoreQuota(pool: seq<Channel>, was: seq<Request>, quotas: seq<int>, n: nat, a: int)
    requires n < |was| && |quotas| == n && AreQuotas(pool, was[..n], quotas) && IsQuota(pool, was[n], a)
    ensures AreQuotas(pool, was[..n + 1], quotas + [a])
  {
    hide IsQuota;
    forall i | 0 <= i < n + 1
      ensures IsQuota(pool, was[..n + 1][i], (quotas + [a])[i])
    {
      if i < n {
        assert IsQuota(pool, was[..n][i], quotas[i]);
      }
    }
  }

  lemma SamePeers(queue: seq<Request>, i: nat, r: Request)
    requires i < |queue| && r.peer == queue[i].peer
    ensures forall p :: OfPeer(queue[i := r], p) == OfPeer(queue, p)
  {
    forall p: nat
      ensures OfPeer(queue[i := r], p) == OfPeer(queue, p)
    {
      Replace(queue, i, r, p);
    }
  }

  function Reversed(rs: seq<Request>): (r: seq<Request>)
    ensures |r| == |rs|
    ensures forall i :: 0 <= i < |r| ==> r[i] == rs[|rs| - 1 - i]
  {
    if rs == [] then [] else [rs[|rs| - 1]] + Reversed(rs[..|rs| - 1])
  }

  lemma {:induction false} PeersReversed(rs: seq<Request>, p: nat)
    ensures OfPeer(Reversed(rs), p) == OfPeer(rs, p)
    decreases |rs|
  {
    if rs != [] {
      PeersReversed(rs[..|rs| - 1], p);
      QueuesAdd([rs[|rs| - 1]], Reversed(rs[..|rs| - 1]), p, 0);
      OneRequest(rs[|rs| - 1], p, 0);
    }
  }

  lemma LeavingIsOk(queue: seq<Request>, gone: set<nat>, channels: nat)
    requires QueueOk(queue, channels)
    ensures QueueOk(Leaving(queue, gone), channels) && DeliveriesOk(Emptied(Leaving(queue, gone)))
  {
    var l := Leaving(queue, gone);
    forall i | 0 <= i < |l|
      ensures RequestOk(l[i], channels)
    {
      var j :| 0 <= j < |queue| && queue[j] == l[i];
    }
    EmptiedIsOk(l, channels);
  }

  lemma EmptiedIsOk(queue: seq<Request>, channels: nat)
    ensures QueueOk(queue, channels) ==> DeliveriesOk(Emptied(queue))
  {
    if QueueOk(queue, channels) {
      forall i | 0 <= i < |queue|
        ensures DeliveryOk(Emptied(queue)[i])
      {
        assert RequestOk(queue[i], channels);
      }
    }
  }

  lemma ChannelsExist(queue: seq<Request>, channels: nat)
    requires QueueOk(queue, channels)
    ensures forall k: nat :: WaitedFor(queue, k) ==> k < channels
  {
    forall k: nat | WaitedFor(queue, k)
      ensures k < channels
    {
      var i :| 0 <= i < |queue| && k in queue[i].channels;
      assert RequestOk(queue[i], channels);
    }
  }

  /** Topping up keeps the quota within an int, so that the conversion of what is to be
      distributed is exact, and does not make it negative. */
  lemma TopUpIsExact(c: Channel, dt: nat)
    requires LimitOk(c) && c.limit != 0
    ensures var d := UpdateQuota(c, dt);
      && d.distributeQuota == Max(d.quotaLeft, 0) && 0 <= d.distributeQuota <= INF
      && (c.quotaLeft >= 0 ==> d.quotaLeft >= 0)
      && d.tmp == c.tmp && d.limit == c.limit
  {
    Positive(c.limit, dt);
    ToIntIsExactIff(Max(ToppedUp(c, dt), 0));
  }

  /** A channel's weight is at least the priority of every request that waits for it. */
  lemma {:induction false} WeightAtLeast(queue: seq<Request>, i: nat, k: nat, channels: nat)
    requires QueueOk(queue, channels) && i < |queue| && k in queue[i].channels
    ensures Weight(queue, k) >= queue[i].priority
    decreases |queue|
  {
    var n := |queue| - 1;
    var r := queue[n];
    assert RequestOk(r, channels) && queue[..n + 1] == queue;
    Manager.OneMoreWeight(queue, n);
    if i < n {
      WeightAtLeast(queue[..n], i, k, channels);
      PositiveProduct(Uses(r.channels, |r.channels|, k), r.priority);
    } else {
      WeightIsPositiveIff(queue[..n], k, channels);
      UsesIfIn(r.channels, |r.channels|, k);
      assert r.channels[..|r.channels|] == r.channels;
      Times(1, Uses(r.channels, |r.channels|, k), r.priority);
    }
  }

  /** After the first three loops every request can be served. */
  lemma {:induction false} AllShareable(queue: seq<Request>, pool1: seq<Channel>, pool2: seq<Channel>, mid: seq<Channel>, dt: nat)
    requires |pool1| == |pool2| == |mid| && PoolOk(pool2) && QueueOk(queue, |mid|)
    requires forall i :: 0 <= i < |queue| ==> Clear(pool1, queue[i])
    requires forall k :: 0 <= k < |pool1| ==> pool2[k] == pool1[k].(tmp := pool1[k].tmp + Weight(queue, k))
    requires forall k :: 0 <= k < |mid| ==> mid[k] == if WaitedFor(queue, k) then UpdateQuota(pool2[k], dt) else pool2[k]
    ensures forall i :: 0 <= i < |queue| ==> Shareable(mid, queue[i])
  {
    hide Weight, UpdateQuota;
    forall i | 0 <= i < |queue|
      ensures Shareable(mid, queue[i])
    {
      var r := queue[i];
      assert RequestOk(r, |mid|) && Clear(pool1, r);
      forall j | 0 <= j < |r.channels|
        ensures ShareableAt(mid[r.channels[j]], r.priority)
      {
        var k := r.channels[j];
        assert k in queue[i].channels && WaitedFor(queue, k);
        WeightAtLeast(queue, i, k, |mid|);
        if pool2[k].limit != 0 {
          TopUpIsExact(pool2[k], dt);
        } else {
          Unlimited(pool2[k], dt);
        }
      }
    }
  }

  lemma Unlimited(c: Channel, dt: nat)
    requires c.limit == 0
    ensures UpdateQuota(c, dt) == c
  {
  }

  /** What a tick does to channel k: refunds come in, the quota is topped up if a request
      waits for it, and what is handed out is at most what it has to distribute. A quota
      that was not negative does not become so. */
  ghost predicate Ticked(c: Channel, m: Channel, d: Channel, was: seq<Request>, staying: seq<Request>, gone: set<nat>,
                         quotas: seq<int>, k: nat, dt: nat)
    requires |quotas| == |staying|
  {
    && d.limit == m.limit == c.limit
    && (c.limit == 0 ==> d.quotaLeft == c.quotaLeft)
    && (c.limit != 0 ==>
          && (var refunded := c.quotaLeft + Refund(Leaving(was, gone), k);
              if WaitedFor(staying, k) then Filled(c.limit, refunded, m.quotaLeft, dt) else m.quotaLeft == refunded)
          && d.quotaLeft == m.quotaLeft - Taken(staying, quotas, k)
          && (WaitedFor(staying, k) ==>
                m.tmp == Weight(staying, k) > 0 && 0 <= Taken(staying, quotas, k) <= m.distributeQuota == Max(m.quotaLeft, 0))
          && (c.quotaLeft >= 0 ==> d.quotaLeft >= 0))
  }

  lemma {:induction false} RefundNotNegative(queue: seq<Request>, k: nat, channels: nat)
    requires QueueOk(queue, channels)
    ensures Refund(queue, k) >= 0
    decreases |queue|
  {
    if queue != [] {
      var r := queue[|queue| - 1];
      assert RequestOk(r, channels);
      RefundNotNegative(queue[..|queue| - 1], k, channels);
      Positive(Uses(r.channels, |r.channels|, k), r.granted);
    }
  }

  lemma {:induction false} NothingTaken(pool: seq<Channel>, queue: seq<Request>, quotas: seq<int>, k: nat)
    requires AreQuotas(pool, queue, quotas)
    ensures Taken(queue, quotas, k) >= 0
    ensures !WaitedFor(queue, k) ==> Taken(queue, quotas, k) == 0
    decreases |queue|
  {
    if queue != [] {
      var n := |queue| - 1;
      var r := queue[n];
      assert IsQuota(pool, r, quotas[n]);
      forall i | 0 <= i < n
        ensures IsQuota(pool, queue[..n][i], quotas[..n][i])
      {
        assert IsQuota(pool, queue[i], quotas[i]);
      }
      NothingTaken(pool, queue[..n], quotas[..n], k);
      QuotaBounds(pool, r, Assigning(r), k);
      Positive(Uses(r.channels, Assigning(r), k), quotas[n]);
      Manager.OneMoreWeight(queue, n);
      assert queue[..n + 1] == queue;
      UsesIfIn(r.channels, Assigning(r), k);
    }
  }

  /** The shares bound what is taken from a limited channel that is waited for. */
  lemma TakenFits(pool: seq<Channel>, queue: seq<Request>, quotas: seq<int>, k: nat)
    requires AreQuotas(pool, queue, quotas) && k < |pool| && pool[k].limit != 0
    requires pool[k].tmp == Weight(queue, k) > 0 && pool[k].distributeQuota >= 0
    ensures Taken(queue, quotas, k) <= pool[k].distributeQuota
  {
    hide Weight, Taken, Quota, Uses;
    forall i | 0 <= i < |queue|
      ensures WithinShare(queue[i], quotas[i], k, pool[k].distributeQuota, pool[k].tmp)
    {
      assert IsQuota(pool, queue[i], quotas[i]);
      QuotaBounds(pool, queue[i], Assigning(queue[i]), k);
    }
    ChannelNeverGivesTooMuch(queue, quotas, k, pool[k].distributeQuota, pool[k].tmp);
  }

  lemma ChannelTicked(was: seq<Request>, staying: seq<Request>, gone: set<nat>, quotas: seq<int>, pool0: seq<Channel>,
                      pool1: seq<Channel>, pool2: seq<Channel>, mid: seq<Channel>, pool: seq<Channel>, k: nat, dt: nat)
    requires |pool0| == |pool1| == |pool2| == |mid| == |pool| && k < |pool| && PoolOk(pool2)
    requires QueueOk(Leaving(was, gone), |pool|) && QueueOk(staying, |pool|)
    requires Refunded(pool0[k], pool1[k], Refund(Leaving(was, gone), k))
    requires WaitedFor(staying, k) ==> pool1[k].tmp == 0
    requires pool2[k] == pool1[k].(tmp := pool1[k].tmp + Weight(staying, k))
    requires mid[k] == if WaitedFor(staying, k) then UpdateQuota(pool2[k], dt) else pool2[k]
    requires AreQuotas(mid, staying, quotas)
    requires Refunded(mid[k], pool[k], -Taken(staying, quotas, k))
    ensures Ticked(pool0[k], mid[k], pool[k], was, staying, gone, quotas, k, dt)
  {
    hide Weight, Taken, Refund, Leaving, AreQuotas;
    RefundNotNegative(Leaving(was, gone), k, |pool|);
    NothingTaken(mid, staying, quotas, k);
    WeightIsPositiveIff(staying, k, |pool|);
    QuotasLength(mid, staying, quotas);
    if pool2[k].limit != 0 {
      TopUpIsExact(pool2[k], dt);
      ToppedUpIsFilled(pool2[k], dt);
      if WaitedFor(staying, k) {
        TakenFits(mid, staying, quotas, k);
      }
    }
  }

  lemma ClearWhereWaited(pool: seq<Channel>, queue: seq<Request>, k: nat)
    requires forall i :: 0 <= i < |queue| ==> Clear(pool, queue[i])
    ensures WaitedFor(queue, k) ==> k < |pool| && pool[k].tmp == 0
  {
  }

  lemma QuotasLength(pool: seq<Channel>, queue: seq<Request>, quotas: seq<int>)
    requires AreQuotas(pool, queue, quotas)
    ensures |quotas| == |queue|
  {
  }
}
