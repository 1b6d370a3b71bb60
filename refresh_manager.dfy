/** manager/RefreshManager: an expiry instant and the time left until it.
    The clock (`System.currentTimeMillis`) is the parameter `now`; the
    arithmetic is Java `long` arithmetic and wraps around. */
module Refreshing {
  import opened JavaInts

  /** The expiry instant that setting an interval at `now` records. */
  function ExpiryAfter(now: Long, refreshTimeMillis: Long): Long {
    WrapLong(now + refreshTimeMillis)
  }

  /** Milliseconds from `now` to `expiration`; negative once it has passed. */
  function Remaining(expiration: Long, now: Long): Long {
    WrapLong(expiration - now)
  }

  /** Setting the interval `d` at `now` leaves exactly `d` milliseconds at
      that instant. */
  lemma RemainingAfterSetting(now: Long, d: Long)
    requires MinLong <= now + d <= MaxLong
    ensures Remaining(ExpiryAfter(now, d), now) == d
  {
  }

  /** With a fixed expiry and a clock that moves forward, the remaining time
      never increases. */
  lemma RemainingNeverIncreases(expiration: Long, t1: Long, t2: Long)
    requires t1 <= t2
    requires MinLong <= expiration - t2 && expiration - t1 <= MaxLong
    ensures Remaining(expiration, t2) <= Remaining(expiration, t1)
  {
  }

  /** A refresh is due exactly from the expiry instant on. */
  lemma DueExactlyFromExpiry(expiration: Long, now: Long)
    requires MinLong <= expiration - now <= MaxLong
    ensures Remaining(expiration, now) <= 0 <==> expiration <= now
  {
  }

  /** Once a refresh is due it stays due while the expiry is not set again. */
  lemma StaysDue(expiration: Long, t1: Long, t2: Long)
    requires t1 <= t2
    requires MinLong <= expiration - t2 && expiration - t1 <= MaxLong
    requires Remaining(expiration, t1) <= 0
    ensures Remaining(expiration, t2) <= 0
  {
    RemainingNeverIncreases(expiration, t1, t2);
  }

  class RefreshManager {
    var expirationTimeMillis: Long

    /** Same as `SetExpirationTime(refreshTimeMillis, now)` on a new object. */
    constructor (refreshTimeMillis: Long, now: Long)
      ensures expirationTimeMillis == ExpiryAfter(now, refreshTimeMillis)
      ensures MinLong <= now + refreshTimeMillis <= MaxLong ==> RemainingTime(now) == refreshTimeMillis
    {
      expirationTimeMillis := ExpiryAfter(now, refreshTimeMillis);
      if MinLong <= now + refreshTimeMillis <= MaxLong {
        RemainingAfterSetting(now, refreshTimeMillis);
      }
    }

    method SetExpirationTime(refreshTimeMillis: Long, now: Long)
      modifies this
      ensures expirationTimeMillis == ExpiryAfter(now, refreshTimeMillis)
      ensures MinLong <= now + refreshTimeMillis <= MaxLong ==> RemainingTime(now) == refreshTimeMillis
    {
      expirationTimeMillis := ExpiryAfter(now, refreshTimeMillis);
      if MinLong <= now + refreshTimeMillis <= MaxLong {
        RemainingAfterSetting(now, refreshTimeMillis);
      }
    }

    /** The remaining time; it is the plain difference unless that
        overflows a long, and may be negative. */
    function RemainingTime(now: Long): (r: Long)
      reads this
      ensures MinLong <= expirationTimeMillis - now <= MaxLong ==> r + now == expirationTimeMillis
      ensures MinLong <= expirationTimeMillis - now <= MaxLong ==> (r < 0 <==> now > expirationTimeMillis)
    {
      Remaining(expirationTimeMillis, now)
    }

    /** A refresh is required once no time remains. */
    predicate IsRefreshRequired(now: Long)
      reads this
      ensures MinLong <= expirationTimeMillis - now <= MaxLong ==> (IsRefreshRequired(now) <==> expirationTimeMillis <= now)
    {
      RemainingTime(now) <= 0
    }
  }
}
