/**
 * Client certificates (IVA / IIBB exemption certificates) and their expiry
 * predicates.
 *
 * `fecha_vencimiento` is a `date` column: as a Carbon instance it is
 * midnight of that day. "now" is a timestamp with a time of day, so both
 * are counted here in seconds: a day number `d` is the instant
 * `d * SecondsPerDay`.
 */
module Certificates {
  import opened Common

  const SecondsPerDay: int := 86400

  datatype CertType = IVA | IIBB

  datatype Certificate = Certificate(
    id: nat,
    clientId: nat,
    tipo: CertType,
    numero: string,
    fechaVencimiento: int,   // day number
    alertado: bool)

  /** The instant `fecha_vencimiento` stands for: midnight of that day. */
  function ExpiresAt(c: Certificate): int
  {
    c.fechaVencimiento * SecondsPerDay
  }

  /** Whole days in `a` seconds, rounded toward zero as Carbon's integer difference is. */
  function WholeDays(a: int): (q: int)
    ensures a >= 0 ==> 0 <= q * SecondsPerDay <= a < (q + 1) * SecondsPerDay
    ensures a < 0 ==> (q - 1) * SecondsPerDay < a <= q * SecondsPerDay <= 0
  {
    if a >= 0 then a / SecondsPerDay else -((-a) / SecondsPerDay)
  }

  /** `vigente`: the expiry instant is not before now. */
  predicate Vigente(c: Certificate, now: int)
  {
    ExpiresAt(c) >= now
  }

  /** `isExpired()`: the expiry instant is before now. */
  predicate IsExpired(c: Certificate, now: int)
  {
    ExpiresAt(c) < now
  }

  /**
   * `days_until_expiration`: `now()->diffInDays($fecha_vencimiento, false)`,
   * the signed number of whole days from now to the expiry instant.
   */
  function DaysUntilExpiration(c: Certificate, now: int): (days: int)
    ensures days >= 0 <==> ExpiresAt(c) - now > -SecondsPerDay
    ensures days <= 0 <==> ExpiresAt(c) - now < SecondsPerDay
  {
    WholeDays(ExpiresAt(c) - now)
  }

  const DefaultDaysThreshold: int := 2

  /** `isExpiringSoon($daysThreshold = 2)`: 0 <= days <= threshold. */
  predicate IsExpiringSoon(c: Certificate, now: int, daysThreshold: int := DefaultDaysThreshold)
  {
    var days := DaysUntilExpiration(c, now);
    days >= 0 && days <= daysThreshold
  }

  /** `isExpired` is exactly the negation of `vigente`. */
  lemma ExpiredIffNotVigente(c: Certificate, now: int)
    ensures IsExpired(c, now) <==> !Vigente(c, now)
  {
  }

  /**
   * The difference is signed: once the expiry instant is a full day behind
   * now the count is negative, while a vigente certificate never has a
   * negative count.
   */
  lemma DaysUntilExpirationSign(c: Certificate, now: int)
    ensures Vigente(c, now) ==> DaysUntilExpiration(c, now) >= 0
    ensures ExpiresAt(c) <= now - SecondsPerDay ==> DaysUntilExpiration(c, now) < 0
    ensures IsExpired(c, now) ==> DaysUntilExpiration(c, now) <= 0
  {
  }

  /** At midnight the count is the plain difference of day numbers. */
  lemma DaysUntilExpirationAtMidnight(c: Certificate, today: int)
    ensures DaysUntilExpiration(c, today * SecondsPerDay) == c.fechaVencimiento - today
  {
    var x := (c.fechaVencimiento - today) * SecondsPerDay;
    assert ExpiresAt(c) - today * SecondsPerDay == x;
    var d := c.fechaVencimiento - today;
    if d >= 0 {
      assert x / SecondsPerDay == d;
    } else {
      assert -x == (-d) * SecondsPerDay;
      assert (-x) / SecondsPerDay == -d;
    }
  }

  /** A larger threshold never turns an expiring certificate into a non-expiring one. */
  lemma IsExpiringSoonMonotone(c: Certificate, now: int, t1: int, t2: int)
    requires t1 <= t2 && IsExpiringSoon(c, now, t1)
    ensures IsExpiringSoon(c, now, t2)
  {
  }

  /**
   * Because the count rounds toward zero, a certificate whose expiry
   * midnight has passed earlier today still counts 0 days and is
   * "expiring soon", although it is already expired.
   */
  lemma ExpiredButExpiringSoon()
    ensures var c := Certificate(1, 1, IVA, "0001", 20000, false);
            var now := 20000 * SecondsPerDay + 36000;
            IsExpired(c, now) && DaysUntilExpiration(c, now) == 0 && IsExpiringSoon(c, now)
  {
    var c := Certificate(1, 1, IVA, "0001", 20000, false);
    var now := 20000 * SecondsPerDay + 36000;
    assert ExpiresAt(c) - now == -36000;
    assert WholeDays(-36000) == 0;
  }
}
