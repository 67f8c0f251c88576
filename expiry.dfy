/**
 * Subscription status derived from an end instant and "now", both as integer
 * milliseconds since the epoch. The admin member card and the member portal
 * use two different rules; both are modelled and compared here.
 */
module Expiry {

  /** `1000 * 60 * 60 * 24`. */
  const MillisPerDay: int := 86400000

  /** `Math.ceil(a / b)` for a positive divisor, on integers. */
  function CeilDiv(a: int, b: int): (q: int)
    requires b > 0
    ensures b * (q - 1) < a <= b * q
  {
    -((-a) / b)
  }

  /** A positive factor can be cancelled from a strict inequality. */
  lemma CancelPositiveFactor(b: int, x: int, y: int)
    requires b > 0 && b * x < b * y
    ensures x < y
  {
    assert b * (y - x) == b * y - b * x;
  }

  /** The ceiling is the only integer with that property. */
  lemma CeilDivUnique(a: int, b: int, q: int)
    requires b > 0 && b * (q - 1) < a <= b * q
    ensures q == CeilDiv(a, b)
  {
    var c := CeilDiv(a, b);
    CancelPositiveFactor(b, q - 1, c);
    CancelPositiveFactor(b, c - 1, q);
  }

  /** The member card's rule: expired iff the end lies strictly before now. */
  predicate CardExpired(endMillis: int, nowMillis: int)
  {
    endMillis < nowMillis
  }

  /** The portal's `daysLeft`: whole days remaining, rounded up. */
  function DaysLeft(endMillis: int, nowMillis: int): int
  {
    CeilDiv(endMillis - nowMillis, MillisPerDay)
  }

  /** The portal's rule: expired iff `daysLeft < 0`. */
  predicate PortalExpired(endMillis: int, nowMillis: int)
  {
    DaysLeft(endMillis, nowMillis) < 0
  }

  /** The days shown under "Remaining": `Math.max(0, daysLeft)`. */
  function DisplayDays(endMillis: int, nowMillis: int): (n: nat)
    ensures n == 0 <==> DaysLeft(endMillis, nowMillis) <= 0
    ensures n > 0 ==> n == DaysLeft(endMillis, nowMillis)
  {
    var d := DaysLeft(endMillis, nowMillis);
    if d < 0 then 0 else d
  }

  /** `daysLeft` is the number of whole days, rounded up, between now and the end. */
  lemma DaysLeftBounds(endMillis: int, nowMillis: int)
    ensures var d := DaysLeft(endMillis, nowMillis);
      MillisPerDay * (d - 1) < endMillis - nowMillis <= MillisPerDay * d
  {
  }

  /** The portal shows EXPIRED exactly when the end is at least one full day past. */
  lemma PortalExpiredIff(endMillis: int, nowMillis: int)
    ensures PortalExpired(endMillis, nowMillis) <==> endMillis <= nowMillis - MillisPerDay
  {
    var d := DaysLeft(endMillis, nowMillis);
    if d < 0 {
      assert MillisPerDay * d <= MillisPerDay * -1;
    } else {
      assert MillisPerDay * (d - 1) >= MillisPerDay * -1;
    }
  }

  /** Whatever the portal calls expired, the card calls expired too. */
  lemma PortalExpiredImpliesCardExpired(endMillis: int, nowMillis: int)
    ensures PortalExpired(endMillis, nowMillis) ==> CardExpired(endMillis, nowMillis)
  {
    PortalExpiredIff(endMillis, nowMillis);
  }

  /** The two rules disagree exactly on the last day before a full day has passed. */
  lemma RulesDisagreeIff(endMillis: int, nowMillis: int)
    ensures CardExpired(endMillis, nowMillis) != PortalExpired(endMillis, nowMillis)
      <==> nowMillis - MillisPerDay < endMillis < nowMillis
  {
    PortalExpiredIff(endMillis, nowMillis);
  }

  /** One millisecond past the end: the card says expired, the portal says ACTIVE with 0 days. */
  lemma RulesDisagreeExample(nowMillis: int)
    ensures CardExpired(nowMillis - 1, nowMillis)
    ensures !PortalExpired(nowMillis - 1, nowMillis)
    ensures DisplayDays(nowMillis - 1, nowMillis) == 0
  {
    RulesDisagreeIff(nowMillis - 1, nowMillis);
  }

  /** An end equal to now is active under both rules. */
  lemma EndEqualToNowIsActive(nowMillis: int)
    ensures !CardExpired(nowMillis, nowMillis) && !PortalExpired(nowMillis, nowMillis)
  {
    PortalExpiredIff(nowMillis, nowMillis);
  }

  /** An end five days past: `daysLeft == -5`, EXPIRED, and 0 days shown. */
  lemma FiveDaysPastExample(nowMillis: int)
    ensures DaysLeft(nowMillis - 5 * MillisPerDay, nowMillis) == -5
    ensures PortalExpired(nowMillis - 5 * MillisPerDay, nowMillis)
    ensures DisplayDays(nowMillis - 5 * MillisPerDay, nowMillis) == 0
  {
    CeilDivUnique(-5 * MillisPerDay, MillisPerDay, -5);
  }

  /** While the portal shows ACTIVE, the days shown are the raw `daysLeft`. */
  lemma DisplayDaysWhenActive(endMillis: int, nowMillis: int)
    requires !PortalExpired(endMillis, nowMillis)
    ensures DisplayDays(endMillis, nowMillis) == DaysLeft(endMillis, nowMillis)
  {
  }
}
