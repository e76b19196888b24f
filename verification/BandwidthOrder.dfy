/** Which requests go, which stay and which channels hold one back, place by place; and that
    a request gets the smallest of its shares. */
module BandwidthOrder {
  import opened Picking
  import opened Bandwidth
  import opened BandwidthManager

  /** Those at the places out are of peers that go, those at the places stay are not. */
  ghost predicate Parted(queue: seq<Request>, gone: set<nat>, out: seq<nat>, stay: seq<nat>) {
    forall i :: 0 <= i < |queue| ==> (i in out <==> queue[i].peer in gone) && (i in stay <==> queue[i].peer !in gone)
  }

  /** The requests that leave are those at the places out, those that stay the others. */
  ghost predicate Divided(queue: seq<Request>, gone: set<nat>, out: seq<nat>, stay: seq<nat>) {
    && Picked(queue, out, Leaving(queue, gone)) && Picked(queue, stay, Staying(queue, gone))
    && Parted(queue, gone, out, stay)
  }

  /** The first loop of a tick: the requests of peers that go leave, and both they and those
      that stay keep their order. */
  lemma {:induction false} WhoGoes(queue: seq<Request>, gone: set<nat>) returns (out: seq<nat>, stay: seq<nat>)
    ensures Divided(queue, gone, out, stay)
  {
    hide Divided;
    if queue == [] {
      out, stay := [], [];
      NobodyGoes(gone);
    } else {
      var n := |queue| - 1;
      out, stay := WhoGoes(queue[..n], gone);
      DividedNext(queue, gone, out, stay);
      if queue[n].peer in gone {
        out := out + [n];
      } else {
        stay := stay + [n];
      }
    }
  }

  lemma NobodyGoes(gone: set<nat>)
    ensures Divided([], gone, [], [])
  {
  }

  lemma DividedNext(queue: seq<Request>, gone: set<nat>, out: seq<nat>, stay: seq<nat>)
    requires queue != [] && Divided(queue[..|queue| - 1], gone, out, stay)
    ensures var n := |queue| - 1;
      if queue[n].peer in gone then Divided(queue, gone, out + [n], stay) else Divided(queue, gone, out, stay + [n])
  {
    hide Parted, Picked, Leaving, Staying;
    var n := |queue| - 1;
    var leaving, staying := OneMoreLeaves(queue, gone);
    GoesNext(queue[..n], gone, out, stay, leaving, staying, queue[n], queue);
  }

  lemma OneMoreLeaves(queue: seq<Request>, gone: set<nat>) returns (leaving: seq<Request>, staying: seq<Request>)
    requires queue != []
    ensures var n, r := |queue| - 1, queue[|queue| - 1];
      && leaving == Leaving(queue[..n], gone) && staying == Staying(queue[..n], gone)
      && Leaving(queue, gone) == (if r.peer in gone then leaving + [r] else leaving)
      && Staying(queue, gone) == (if r.peer in gone then staying else staying + [r])
      && queue == queue[..n] + [r]
  {
    hide Leaving, Staying;
    leaving := LeavingNext(queue, gone);
    staying := StayingNext(queue, gone);
    SplitLast(queue);
  }

  lemma LeavingNext(queue: seq<Request>, gone: set<nat>) returns (leaving: seq<Request>)
    requires queue != []
    ensures leaving == Leaving(queue[..|queue| - 1], gone)
    ensures Leaving(queue, gone)
      == if queue[|queue| - 1].peer in gone then leaving + [queue[|queue| - 1]] else leaving
  {
    leaving := Leaving(queue[..|queue| - 1], gone);
    NothingAdded(leaving);
  }

  lemma StayingNext(queue: seq<Request>, gone: set<nat>) returns (staying: seq<Request>)
    requires queue != []
    ensures staying == Staying(queue[..|queue| - 1], gone)
    ensures Staying(queue, gone)
      == if queue[|queue| - 1].peer in gone then staying else staying + [queue[|queue| - 1]]
  {
    staying := Staying(queue[..|queue| - 1], gone);
    NothingAdded(staying);
  }

  lemma NothingAdded(s: seq<Request>)
    ensures s + [] == s
  {
  }

  lemma SplitLast(s: seq<Request>)
    requires s != []
    ensures s == s[..|s| - 1] + [s[|s| - 1]]
  {
  }

  lemma GoesNext(queue: seq<Request>, gone: set<nat>, out: seq<nat>, stay: seq<nat>,
                 leaving: seq<Request>, staying: seq<Request>, r: Request, all: seq<Request>)
    requires Picked(queue, out, leaving) && Picked(queue, stay, staying) && Parted(queue, gone, out, stay)
    requires all == queue + [r]
    ensures r.peer in gone ==>
      && Picked(all, out + [|queue|], leaving + [r]) && Picked(all, stay, staying)
      && Parted(all, gone, out + [|queue|], stay)
    ensures r.peer !in gone ==>
      && Picked(all, out, leaving) && Picked(all, stay + [|queue|], staying + [r])
      && Parted(all, gone, out, stay + [|queue|])
  {
    PickNext(queue, out, leaving, r);
    PickNext(queue, stay, staying, r);
  }

  /** The fourth loop: every request got its quota and is a round older. It is done exactly
      if it has all it asked for, or something and no round left; the others stay. */
  ghost predicate Sorted(queue: seq<Request>, quotas: seq<int>, out: seq<nat>, stay: seq<nat>)
    requires |queue| == |quotas|
  {
    && Places(out, |queue|) && Places(stay, |queue|)
    && forall i :: 0 <= i < |queue| ==>
         && (i in stay <==> i !in out)
         && (i in out <==>
               || queue[i].granted + quotas[i] == queue[i].requestSize
               || (queue[i].ttl <= 1 && queue[i].granted + quotas[i] > 0))
  }

  ghost predicate Got(queue: seq<Request>, quotas: seq<int>, at: seq<nat>, some: seq<Request>)
    requires |queue| == |quotas|
  {
    && Places(at, |queue|) && |some| == |at|
    && forall m :: 0 <= m < |at| ==>
         some[m] == queue[at[m]].(granted := queue[at[m]].granted + quotas[at[m]], ttl := queue[at[m]].ttl - 1)
  }

  lemma {:induction false} WhoIsDone(queue: seq<Request>, quotas: seq<int>) returns (out: seq<nat>, stay: seq<nat>)
    requires |queue| == |quotas|
    ensures Sorted(queue, quotas, out, stay)
    ensures Got(queue, quotas, out, Finished(queue, quotas)) && Got(queue, quotas, stay, Remain(queue, quotas))
  {
    hide Sorted, Got, Remain, Finished, Served, Ready;
    if queue == [] {
      out, stay := [], [];
      NoneSorted();
    } else {
      var n := |queue| - 1;
      out, stay := WhoIsDone(queue[..n], quotas[..n]);
      OneMoreServed(queue, quotas[..n], n, quotas[n]);
      assert queue[..n + 1] == queue && quotas[..n] + [quotas[n]] == quotas;
      OneMoreIsSorted(queue, quotas, n, out, stay, Finished(queue[..n], quotas[..n]), Remain(queue[..n], quotas[..n]));
      if Ready(Served(queue[n], quotas[n])) {
        out := out + [n];
      } else {
        stay := stay + [n];
      }
    }
  }

  lemma NoneSorted()
    ensures Sorted([], [], [], []) && Got([], [], [], Finished([], [])) && Got([], [], [], Remain([], []))
  {
  }

  lemma OneMoreIsSorted(queue: seq<Request>, quotas: seq<int>, n: nat, out: seq<nat>, stay: seq<nat>,
                        done: seq<Request>, rest: seq<Request>)
    requires |queue| == |quotas| == n + 1 && Sorted(queue[..n], quotas[..n], out, stay)
    requires Got(queue[..n], quotas[..n], out, done) && Got(queue[..n], quotas[..n], stay, rest)
    ensures var r := Served(queue[n], quotas[n]);
      && (Ready(r) ==> Sorted(queue, quotas, out + [n], stay) && Got(queue, quotas, out + [n], done + [r]))
      && (!Ready(r) ==> Sorted(queue, quotas, out, stay + [n]) && Got(queue, quotas, stay + [n], rest + [r]))
      && Got(queue, quotas, out, done) && Got(queue, quotas, stay, rest)
  {
  }

  /** A block of bandwidth waits for the channels that would be left with less than their
      limit, in the order they were given. */
  lemma {:induction false} WhoHolds(pool: seq<Channel>, blk: int, chans: seq<nat>, n: nat) returns (at: seq<nat>)
    requires n <= |chans| && Distinct(chans) && forall j :: 0 <= j < |chans| ==> chans[j] < |pool|
    ensures Picked(chans[..n], at, Held(pool, blk, chans, n))
    ensures forall j :: 0 <= j < n ==> (j in at <==> pool[chans[j]].quotaLeft - blk < pool[chans[j]].limit)
    decreases n
  {
    hide Held, Charged;
    if n == 0 {
      at := [];
      NoneHeld(pool, blk, chans);
    } else {
      at := WhoHolds(pool, blk, chans, n - 1);
      var k := chans[n - 1];
      PickNext(chans[..n - 1], at, Held(pool, blk, chans, n - 1), k);
      assert chans[..n] == chans[..n - 1] + [k];
      OneMoreHeld(pool, blk, chans, n);
      if pool[k].quotaLeft - blk < pool[k].limit {
        at := at + [n - 1];
      }
    }
  }

  lemma NoneHeld(pool: seq<Channel>, blk: int, chans: seq<nat>)
    requires forall j :: 0 <= j < |chans| ==> chans[j] < |pool|
    ensures Held(pool, blk, chans, 0) == []
  {
  }

  lemma OneMoreHeld(pool: seq<Channel>, blk: int, chans: seq<nat>, n: nat)
    requires 0 < n <= |chans| && Distinct(chans) && forall j :: 0 <= j < |chans| ==> chans[j] < |pool|
    ensures var c, before := pool[chans[n - 1]], Held(pool, blk, chans, n - 1);
      Held(pool, blk, chans, n) == if c.quotaLeft - blk < c.limit then before + [chans[n - 1]] else before
  {
    HeldExactly(pool, blk, chans, n - 1);
    assert chans[n - 1] !in chans[..n - 1];
    assert Held(pool, blk, chans, n - 1) + [] == Held(pool, blk, chans, n - 1);
  }

  /** What a request gets is all it asks for, or its share of one of the limited channels it
      is assigned from: no less than the smallest of these. */
  lemma {:induction false} QuotaIsOneOfThem(pool: seq<Channel>, r: Request, n: nat)
    requires Shareable(pool, r) && n <= |r.channels|
    ensures Quota(pool, r, n) == r.requestSize - r.granted || exists j :: 0 <= j < n && IsShare(pool, r, j, Quota(pool, r, n))
    decreases n
  {
    if n > 0 {
      QuotaIsOneOfThem(pool, r, n - 1);
      var c := pool[r.channels[n - 1]];
      assert ShareableAt(c, r.priority);
      if c.limit != 0 {
        ShareFits(c.distributeQuota, r.priority, c.tmp);
        if Quota(pool, r, n) != Quota(pool, r, n - 1) {
          assert IsShare(pool, r, n - 1, Quota(pool, r, n));
        }
      }
    }
  }

  /** The j-th channel of the request has a limit, and this is the request's part of what it
      distributes, by priority and rounded down. */
  predicate IsShare(pool: seq<Channel>, r: Request, j: nat, share: int)
    requires ChannelsIn(pool, r) && j < |r.channels|
  {
    var c := pool[r.channels[j]];
    c.limit != 0 && c.tmp > 0 && share == c.distributeQuota * r.priority / c.tmp
  }
}
