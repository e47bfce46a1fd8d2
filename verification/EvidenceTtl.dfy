/** How long published node evidence stays valid: from the duration a client
    asks for, over whole seconds on the wire, to the broker's own limit and back
    as a record in Unix seconds. Durations and times are nanoseconds. */
module EvidenceTtl {
  import opened Results
  import opened Times

  const YEAR_SECONDS := 365 * 24 * 3600
  const DEFAULT_TTL := 5 * 60 * SECOND

  /** Whole seconds, rounded up. */
  function CeilingSeconds(duration: int): (seconds: int)
    requires duration > 0
    ensures seconds >= 1
    ensures (seconds - 1) * SECOND < duration <= seconds * SECOND
  {
    var seconds := duration / SECOND;
    if duration % SECOND != 0 then seconds + 1 else seconds
  }

  /** The broker's bounds on the requested seconds. */
  function RequestedTtl(seconds: int): Option<int> {
    if seconds <= 0 || seconds > YEAR_SECONDS then None else Some(seconds * SECOND)
  }

  function Maximum(configured: int): int {
    if configured <= 0 then DEFAULT_TTL else configured
  }

  function AcceptedTtl(configured: int, requested: int): int {
    if requested > Maximum(configured) then Maximum(configured) else requested
  }

  /** Unix seconds of a time; times before the epoch round down too. */
  function Unix(time: int): (seconds: int)
    ensures seconds * 1_000_000_000 <= time < (seconds + 1) * 1_000_000_000
  {
    time / SECOND
  }

  function Min(a: int, b: int): (m: int)
    ensures m <= a && m <= b && (m == a || m == b)
  {
    if a < b then a else b
  }

  lemma WholeSeconds(time: int, seconds: int)
    ensures Unix(time + seconds * SECOND) == Unix(time) + seconds
  {
    assert time == Unix(time) * SECOND + time % SECOND;
    assert time + seconds * SECOND == (Unix(time) + seconds) * SECOND + time % SECOND;
  }

  /** Truncation keeps the expiry after the collection at every clock reading
      if and only if the lifetime is at least a second. */
  lemma TruncationKeepsOrderIff(ttl: int)
    ensures (forall now :: Unix(now) < Unix(now + ttl)) <==> ttl >= SECOND
  {
    if ttl >= SECOND {
      forall now ensures Unix(now) < Unix(now + ttl) {
        WholeSeconds(now, 1);
        assert now + 1 * SECOND <= now + ttl;
      }
    } else {
      assert Unix(0) == 0 && Unix(0 + ttl) <= 0;
    }
  }

  /** The broker turns a duration down exactly when it exceeds a year. Otherwise
      the lifetime is the smaller of the rounded duration and the limit, and the
      record in Unix seconds expires after it was collected, whatever the clock
      says, exactly when the limit is at least a second. */
  lemma AcceptedLifetime(duration: int, configured: int)
    requires duration > 0
    ensures RequestedTtl(CeilingSeconds(duration)).None? <==> duration > 31_536_000 * SECOND
    ensures forall requested | RequestedTtl(CeilingSeconds(duration)) == Some(requested) ::
              && duration <= requested < duration + SECOND && requested % SECOND == 0
              && AcceptedTtl(configured, requested)
                 == Min(requested, if configured <= 0 then 300 * SECOND else configured)
              && ((forall now :: Unix(now) < Unix(now + AcceptedTtl(configured, requested)))
                  <==> configured <= 0 || configured >= SECOND)
  {
    var requested := RequestedTtl(CeilingSeconds(duration));
    if requested.Some? {
      TruncationKeepsOrderIff(AcceptedTtl(configured, requested.value));
    }
  }

  /** Under a limit of whole seconds, as the configuration gives it, the record in
      Unix seconds lives exactly as long as was accepted, at least a second. */
  lemma WholeSecondLimit(duration: int, configured: int, now: int)
    requires duration > 0 && configured % SECOND == 0
    ensures forall requested | RequestedTtl(CeilingSeconds(duration)) == Some(requested) ::
              && AcceptedTtl(configured, requested) >= SECOND
              && Unix(now + AcceptedTtl(configured, requested)) * SECOND
                 == Unix(now) * SECOND + AcceptedTtl(configured, requested)
  {
    assert Maximum(configured) == Maximum(configured) / SECOND * SECOND;
    WholeSeconds(now, Min(CeilingSeconds(duration), Maximum(configured) / SECOND));
  }
}
