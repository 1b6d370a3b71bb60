/** manager/TokenManager: an access token, a refresh token and a lead time
    before the expiry kept by a `RefreshManager`. */
module Tokens {
  import opened Wrappers
  import opened JavaInts
  import opened Refreshing

  /** The lead time a new manager starts with: one minute. */
  const DefaultLeadTime: Long := 60000

  /** A token must be refreshed once no more than `lead` milliseconds remain. */
  predicate RefreshDue(expiration: Long, lead: Long, now: Long) {
    Remaining(expiration, now) <= lead
  }

  /** Without overflow, the refresh is due from `lead` milliseconds before
      the expiry on. */
  lemma DueFromLeadBeforeExpiry(expiration: Long, lead: Long, now: Long)
    requires MinLong <= expiration - now <= MaxLong
    ensures RefreshDue(expiration, lead, now) <==> now >= expiration - lead
  {
  }

  /** A token issued for no longer than the lead time is due at once. */
  lemma ShortValidityDueAtOnce(now: Long, validity: Long, lead: Long)
    requires MinLong <= now + validity <= MaxLong
    requires validity <= lead
    ensures RefreshDue(ExpiryAfter(now, validity), lead, now)
  {
    RemainingAfterSetting(now, validity);
  }

  class TokenManager {
    var accessToken: Option<string>
    var refreshToken: Option<string>
    var activeLeadTime: Long
    var refreshManager: RefreshManager

    constructor (accessToken: Option<string>, refreshToken: Option<string>, accessTokenValidityMillis: Long, now: Long)
      ensures this.accessToken == accessToken && this.refreshToken == refreshToken
      ensures activeLeadTime == DefaultLeadTime
      ensures fresh(refreshManager)
      ensures refreshManager.expirationTimeMillis == ExpiryAfter(now, accessTokenValidityMillis)
    {
      this.accessToken := accessToken;
      this.refreshToken := refreshToken;
      activeLeadTime := DefaultLeadTime;
      refreshManager := new RefreshManager(accessTokenValidityMillis, now);
    }

    method SetAccessToken(accessToken: Option<string>)
      modifies this
      ensures this.accessToken == accessToken
      ensures refreshToken == old(refreshToken) && activeLeadTime == old(activeLeadTime)
      ensures refreshManager == old(refreshManager)
    {
      this.accessToken := accessToken;
    }

    method SetRefreshToken(refreshToken: Option<string>)
      modifies this
      ensures this.refreshToken == refreshToken
      ensures accessToken == old(accessToken) && activeLeadTime == old(activeLeadTime)
      ensures refreshManager == old(refreshManager)
    {
      this.refreshToken := refreshToken;
    }

    /** Restarts the expiry; the remaining time is then the validity itself. */
    method SetExpirationTime(accessTokenValidityMillis: Long, now: Long)
      modifies refreshManager
      ensures refreshManager.expirationTimeMillis == ExpiryAfter(now, accessTokenValidityMillis)
      ensures MinLong <= now + accessTokenValidityMillis <= MaxLong ==> RemainingTime(now) == accessTokenValidityMillis
    {
      refreshManager.SetExpirationTime(accessTokenValidityMillis, now);
    }

    method SetActiveLeadTime(activeLeadTime: Long)
      modifies this
      ensures this.activeLeadTime == activeLeadTime
      ensures accessToken == old(accessToken) && refreshToken == old(refreshToken)
      ensures refreshManager == old(refreshManager)
    {
      this.activeLeadTime := activeLeadTime;
    }

    /** The inner manager's remaining time. */
    function RemainingTime(now: Long): (r: Long)
      reads this, refreshManager
      ensures r == Remaining(refreshManager.expirationTimeMillis, now)
    {
      refreshManager.RemainingTime(now)
    }

    /** The token needs refreshing once no more than the lead time remains. */
    predicate IsRefreshRequired(now: Long)
      reads this, refreshManager
      ensures IsRefreshRequired(now) <==> RefreshDue(refreshManager.expirationTimeMillis, activeLeadTime, now)
      ensures MinLong <= refreshManager.expirationTimeMillis - now <= MaxLong ==>
        (IsRefreshRequired(now) <==> now >= refreshManager.expirationTimeMillis - activeLeadTime)
    {
      RemainingTime(now) <= activeLeadTime
    }
  }
}
