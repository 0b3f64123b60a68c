/**
 * Token-expiry arithmetic. `Date.now()` is the parameter `now`, in
 * milliseconds; expiry instants are in seconds.
 */
module Misc {

  /** The leeway `checkExp` compares against. The comparison is in milliseconds. */
  const Leeway: int := 10

  /** `serialiseExp`: the whole second `now` falls in, plus `expiresIn` seconds. */
  function SerialiseExp(expiresIn: int, now: int): (r: int)
    ensures (r - expiresIn) * 1000 <= now < (r - expiresIn) * 1000 + 1000
  {
    now / 1000 + expiresIn
  }

  /** `checkExp`: true while `now` is more than the leeway before `expiresAt` (in ms). */
  function CheckExp(expiresAt: int, now: int): (ok: bool)
    ensures ok <==> now < expiresAt * 1000 - Leeway
  {
    var delta := expiresAt * 1000 - now;
    delta > Leeway
  }

  /** At exactly the leeway the token already counts as expired (the comparison is strict). */
  lemma CheckExpAtLeeway(expiresAt: int, now: int)
    requires expiresAt * 1000 - now == Leeway
    ensures !CheckExp(expiresAt, now)
  {
  }

  /** Once expired, a token stays expired as the clock advances. */
  lemma CheckExpAntitone(expiresAt: int, now: int, later: int)
    requires now <= later
    requires !CheckExp(expiresAt, now)
    ensures !CheckExp(expiresAt, later)
  {
  }

  /** The leeway is milliseconds despite its comment: a token 11 ms from expiry still passes. */
  lemma LeewayIsMilliseconds(expiresAt: int)
    ensures CheckExp(expiresAt, expiresAt * 1000 - Leeway - 1)
  {
  }

  /** Adding `k` seconds to `expires_in` moves the stored expiry by exactly `k`. */
  lemma SerialiseExpShift(expiresIn: int, k: int, now: int)
    ensures SerialiseExp(expiresIn + k, now) == SerialiseExp(expiresIn, now) + k
  {
  }

  /**
   * Checking a just-serialised expiry at the same clock value: it passes
   * exactly when `expiresIn` seconds, less the milliseconds already elapsed
   * in the current second, exceed the leeway.
   */
  lemma SerialisedCheckIff(expiresIn: int, now: int)
    ensures CheckExp(SerialiseExp(expiresIn, now), now) <==> expiresIn * 1000 - now % 1000 > Leeway
  {
    assert SerialiseExp(expiresIn, now) * 1000 - now == expiresIn * 1000 - now % 1000;
  }

  /** Round trip at the same clock value: two seconds or more always pass. */
  lemma SerialisedFreshPasses(expiresIn: int, now: int)
    requires expiresIn >= 2
    ensures CheckExp(SerialiseExp(expiresIn, now), now)
  {
    SerialisedCheckIff(expiresIn, now);
  }

  /** Round trip at the same clock value: zero or negative lifetimes always fail. */
  lemma SerialisedNonPositiveFails(expiresIn: int, now: int)
    requires expiresIn <= 0
    ensures !CheckExp(SerialiseExp(expiresIn, now), now)
  {
    SerialisedCheckIff(expiresIn, now);
  }

  /** A one-second lifetime passes or fails depending on where in its second `now` falls. */
  lemma SerialisedOneSecondDependsOnPhase()
    ensures CheckExp(SerialiseExp(1, 0), 0)
    ensures !CheckExp(SerialiseExp(1, 990), 990)
  {
    SerialisedCheckIff(1, 0);
    SerialisedCheckIff(1, 990);
  }

  /**
   * A token serialised at `now` is rejected from `expiresIn` seconds after
   * `now`, less the leeway, at the latest.
   */
  lemma SerialisedExpiresInTime(expiresIn: int, now: int, later: int)
    requires later >= now + expiresIn * 1000 - Leeway
    ensures !CheckExp(SerialiseExp(expiresIn, now), later)
  {
    assert SerialiseExp(expiresIn, now) * 1000 <= now + expiresIn * 1000;
  }
}
