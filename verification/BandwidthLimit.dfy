/** bandwidth_channel: the quota of one rate limited channel. */
module BandwidthLimit {
  import opened Bandwidth

  class BandwidthChannel {
    var tmp: int
    var distributeQuota: int
    var quotaLeft: int
    var limit: int

    constructor ()
      ensures View() == Channel(0, 0, 0, 0)
    {
      tmp, distributeQuota, quotaLeft, limit := 0, 0, 0, 0;
    }

    function View(): Channel
      reads this
    {
      Channel(tmp, distributeQuota, quotaLeft, limit)
    }

    /** 0 means infinite. */
    method Throttle(newLimit: int)
      requires 0 <= newLimit < INF
      modifies this`limit
      ensures View() == old(View()).(limit := newLimit)
    {
      limit := newLimit;
    }

    method GetQuotaLeft() returns (q: int)
      ensures q == QuotaLeft(View()) && q >= 0
      ensures limit == 0 ==> q == INF
      ensures limit != 0 && 0 <= quotaLeft <= INF ==> q == quotaLeft
    {
      if limit == 0 {
        return INF;
      }
      q := ToInt(quotaLeft);
      if q < 0 {
        q := 0;
      }
    }

    /** The quota never exceeds what an int holds, so that what is to be distributed is
        exact; and in a limited channel it is at most three seconds of the limit, or what
        it was before. */
    method UpdateQuota(dt: nat)
      requires LimitOk(View())
      modifies this
      ensures View() == Bandwidth.UpdateQuota(old(View()), dt)
      ensures limit == 0 ==> View() == old(View())
      ensures limit != 0 ==> Filled(limit, old(quotaLeft), quotaLeft, dt)
      ensures limit != 0 ==> quotaLeft == INF || quotaLeft <= 3 * limit + 2
      ensures limit != 0 ==> quotaLeft <= INF && distributeQuota == Max(quotaLeft, 0)
    {
      if limit != 0 {
        ToppedUpIsFilled(View(), dt);
      }
      if limit == 0 {
        return;
      }
      var toAdd := (limit * dt + 500) / 1000;
      if toAdd > INF - quotaLeft {
        quotaLeft := INF;
      } else {
        quotaLeft := quotaLeft + toAdd;
        if Third(quotaLeft) > limit {
          quotaLeft := limit * 3;
        }
        quotaLeft := Min(quotaLeft, INF);
      }
      distributeQuota := ToInt(Max(quotaLeft, 0));
    }

    method ReturnQuota(amount: nat)
      modifies this`quotaLeft
      ensures View() == Bandwidth.ReturnQuota(old(View()), amount)
      ensures quotaLeft == if limit == 0 then old(quotaLeft) else old(quotaLeft) + amount
    {
      if limit == 0 {
        return;
      }
      quotaLeft := quotaLeft + amount;
    }

    method UseQuota(amount: nat)
      modifies this`quotaLeft
      ensures View() == Bandwidth.UseQuota(old(View()), amount)
      ensures quotaLeft == if limit == 0 then old(quotaLeft) else old(quotaLeft) - amount
    {
      if limit == 0 {
        return;
      }
      quotaLeft := quotaLeft - amount;
    }

    /** A channel with more than a second of quota left lets a request pass at once. */
    method NeedQueueing(amount: int) returns (queue: bool)
      modifies this`quotaLeft
      ensures queue <==> NeedsQueueing(old(View()), amount)
      ensures queue <==> old(quotaLeft) - amount < limit
      ensures View() == if queue then old(View()) else old(View()).(quotaLeft := old(quotaLeft) - amount)
    {
      if quotaLeft - amount < limit {
        return true;
      }
      quotaLeft := quotaLeft - amount;
      queue := false;
    }
  }

  /** The quota a caller is told about is exact exactly if it fits an int, or if it is
      negative and its low 32 bits are not a positive int. */
  lemma QuotaLeftIsExactIff(c: Channel)
    requires c.limit != 0
    ensures QuotaLeft(c) == Max(c.quotaLeft, 0) <==>
      || 0 <= c.quotaLeft <= INF
      || (c.quotaLeft < 0 && (c.quotaLeft % 0x1_0000_0000 == 0 || c.quotaLeft % 0x1_0000_0000 >= 0x8000_0000))
    ensures FitsInt(c.quotaLeft) ==> QuotaLeft(c) == Max(c.quotaLeft, 0)
  {
  }

  /** A limited channel that gets more quota back than an int holds seems to be empty. */
  method RefundedSeemsEmpty() returns (left: int, q: int)
    ensures left == INF + 1 && q == 0
  {
    var c := new BandwidthChannel();
    c.Throttle(1);
    c.ReturnQuota(INF);
    c.ReturnQuota(1);
    left := c.quotaLeft;
    q := c.GetQuotaLeft();
  }

  /** One that is charged more than that seems to be full: transferred overhead is charged
      without asking, and a channel is only topped up while somebody waits for it. */
  method OverchargedSeemsFull() returns (left: int, q: int)
    ensures left == -0x8000_0001 && q == INF
  {
    var c := new BandwidthChannel();
    c.Throttle(1);
    c.UseQuota(INF);
    c.UseQuota(2);
    left := c.quotaLeft;
    q := c.GetQuotaLeft();
  }
}
