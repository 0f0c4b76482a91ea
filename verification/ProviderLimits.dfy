/**
 * RateLimitTracker: what the providers' response headers last said about their own rate limits,
 * and which deployments are avoided because of it.
 */
module ProviderLimits {
  import opened Basics

  datatype RateLimitInfo = RateLimitInfo(limitRequests: int, remainingRequests: int, limitTokens: int, remainingTokens: int)

  type Limits = map<string, RateLimitInfo>

  /** Fewer than a tenth left, the tenth rounded down. */
  predicate Low(limit: int, remaining: int) {
    limit > 0 && remaining < limit / 10
  }

  predicate Scarce(info: RateLimitInfo) {
    Low(info.limitRequests, info.remainingRequests) || Low(info.limitTokens, info.remainingTokens)
  }

  /** The ids ShouldAvoid answers true for. */
  function Avoided(limits: Limits): set<string> {
    set id | id in limits && Scarce(limits[id])
  }

  /** What is known after an answer; without headers nothing changes. */
  function Noted(limits: Limits, id: string, info: Option<RateLimitInfo>): Limits {
    match info
    case None => limits
    case Some(i) => limits[id := i]
  }

  /**
   * "Below 10% of the limit" is what the code tests, except in one strip: with a limit that is no
   * multiple of ten, exactly the rounded tenth left is below 10% and not avoided.
   */
  lemma LowIsBelowTenthIff(limit: int, remaining: int)
    requires limit > 0
    ensures (Low(limit, remaining) <==> 10 * remaining < limit) <==> limit % 10 == 0 || remaining != limit / 10
  {
    assert limit == 10 * (limit / 10) + limit % 10;
  }

  class RateLimitTracker {
    var state: Limits

    constructor ()
      ensures state == map[]
    {
      state := map[];
    }

    method Update(id: string, info: Option<RateLimitInfo>)
      modifies this
      ensures state == Noted(old(state), id, info)
    {
      if info.None? {
        return;
      }
      state := state[id := info.value];
    }

    /** True iff the last headers of the deployment left it under a tenth of either limit. */
    method ShouldAvoid(id: string) returns (avoid: bool)
      ensures avoid <==> id in Avoided(state)
      ensures avoid <==> id in state && var i := state[id];
                         || (i.limitRequests > 0 && 10 * (i.remainingRequests + 1) <= i.limitRequests)
                         || (i.limitTokens > 0 && 10 * (i.remainingTokens + 1) <= i.limitTokens)
    {
      if id !in state {
        return false;
      }
      var info := state[id];
      if info.limitRequests > 0 {
        var threshold := info.limitRequests / 10;
        if info.remainingRequests < threshold {
          return true;
        }
      }
      if info.limitTokens > 0 {
        var threshold := info.limitTokens / 10;
        if info.remainingTokens < threshold {
          return true;
        }
      }
      return false;
    }
  }
}
