/** The staleness rule shared by the map view and the dashboard: an asset needs
    inspection when it has no watermark or its watermark is more than thirty
    days before `now`. */
module Staleness {
  import opened Domain

  const StaleDays: int := 30
  const MillisPerDay: int := 24 * 60 * 60 * 1000

  /** The oldest watermark that is still fresh at `now`. */
  function Cutoff(now: Timestamp): Timestamp {
    now - StaleDays * MillisPerDay
  }

  /** `isStale(lastUpdated)`, evaluated at `now`. */
  predicate IsStale(lastUpdated: Option<Timestamp>, now: Timestamp) {
    match lastUpdated
    case None => true
    case Some(updated) => updated < Cutoff(now)
  }

  /** A missing watermark is stale; a present one is stale exactly when it is
      more than 2,592,000,000 ms (thirty days) before `now`, so a watermark
      exactly at the cutoff is fresh and one millisecond earlier is stale. */
  lemma StaleThreshold(now: Timestamp)
    ensures IsStale(None, now)
    ensures forall t: Timestamp :: IsStale(Some(t), now) <==> t < now - 2592000000
    ensures !IsStale(Some(now - 2592000000), now)
    ensures IsStale(Some(now - 2592000000 - 1), now)
  {
  }

  /** Staleness only grows as time passes. */
  lemma StaleAsTimePasses(lastUpdated: Option<Timestamp>, now: Timestamp, later: Timestamp)
    requires now <= later
    ensures IsStale(lastUpdated, now) ==> IsStale(lastUpdated, later)
  {
  }

  /** A later watermark is never staler than an earlier one. */
  lemma StaleAntitoneInWatermark(earlier: Timestamp, newer: Timestamp, now: Timestamp)
    requires earlier <= newer
    ensures IsStale(Some(newer), now) ==> IsStale(Some(earlier), now)
  {
  }
}
