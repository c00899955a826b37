/**
 * The contact form's limiter (apps/api/src/services/contactService.ts) over the pruned index: it
 * decides exactly as if the whole log of sends were kept, and no window is ever overrun.
 */
module ContactService {
  import opened Wrappers
  import opened SlidingWindow
  import opened RateLimits

  const MAX_PER_IP: nat := 5
  const GLOBAL_MAX: nat := 60
  const WINDOW_MS: int := 10 * 60 * 1000

  /** What `submit` resolves to; `Unreachable` is its rejection when every recipient failed */
  datatype ContactResult = Sent | RateLimited | Unconfigured | Unreachable

  /** The verdict on the full log: the window holds 60 sends overall, or 5 of this ip */
  predicate Limited(history: seq<Hit>, ip: string, now: int) {
    || CountAfter(history, None, now - WINDOW_MS) >= GLOBAL_MAX
    || CountAfter(history, Some(ip), now - WINDOW_MS) >= MAX_PER_IP
  }

  /** Sixty sends in the last ten minutes, or five of this ip */
  lemma LimitedIff(history: seq<Hit>, ip: string, now: int)
    ensures Limited(history, ip, now) <==>
              || |set i: nat | i < |history| && history[i].at > now - 600_000| >= 60
              || |set i: nat | i < |history| && history[i].at > now - 600_000 && history[i].key == ip| >= 5
  {
    CountIsOfPlaces(history, None, now - 600_000);
    CountIsOfPlaces(history, Some(ip), now - 600_000);
    assert PlacesAfter(history, None, now - 600_000) == set i: nat | i < |history| && history[i].at > now - 600_000;
    assert PlacesAfter(history, Some(ip), now - 600_000) ==
           set i: nat | i < |history| && history[i].at > now - 600_000 && history[i].key == ip;
  }

  function MaxFor(key: Option<string>): nat {
    if key.None? then GLOBAL_MAX else MAX_PER_IP
  }

  ghost predicate WithinLimit(history: seq<Hit>, key: Option<string>) {
    var times := TimesOf(history, key);
    Chronological(times) && Admitted(times, WINDOW_MS, MaxFor(key))
  }

  /** A log the limiter produced: recorded in time order, each send admitted under both limits */
  ghost predicate LimitedLog(history: seq<Hit>, clock: int) {
    && (forall i :: 0 <= i < |history| ==> 0 <= history[i].at <= clock)
    && forall key :: WithinLimit(history, key)
  }

  /** No 10-minute window holds more than 60 sends, or more than 5 of one ip, wherever it ends. */
  lemma EveryWindowIsBounded(history: seq<Hit>, clock: int, ip: string, t: int)
    requires LimitedLog(history, clock)
    ensures CountIn(TimesOf(history, None), t - 600_000, t) <= 60
    ensures CountIn(TimesOf(history, Some(ip)), t - 600_000, t) <= 5
  {
    assert WithinLimit(history, None);
    assert WithinLimit(history, Some(ip));
    WindowBound(TimesOf(history, None), WINDOW_MS, GLOBAL_MAX, t);
    WindowBound(TimesOf(history, Some(ip)), WINDOW_MS, MAX_PER_IP, t);
  }

  /** The 61 minutes an index can hold span at most seven windows: 420 hits, far below the key cap. */
  lemma RetainedHitsAreFew(history: seq<Hit>, clock: int, now: int)
    requires LimitedLog(history, clock) && clock <= now
    ensures CountAfter(history, None, now - 3_660_000) <= 420 < 10_000
  {
    var times := TimesOf(history, None);
    var lo := now - RETENTION_MS - SWEEP_GAP_MS;
    assert WithinLimit(history, None);
    SpanBound(times, WINDOW_MS, GLOBAL_MAX, lo, 7);
    TimesOfCount(history, None, lo, lo + 7 * WINDOW_MS);
  }

  lemma AdmittingKeepsTheLog(history: seq<Hit>, clock: int, ip: string, now: int)
    requires LimitedLog(history, clock) && 0 <= clock <= now && !Limited(history, ip, now)
    ensures LimitedLog(history + [Hit(ip, now)], now)
  {
    var h' := history + [Hit(ip, now)];
    assert h'[..|history|] == history;
    forall key ensures WithinLimit(h', key) {
      assert WithinLimit(history, key);
      if key == None || key == Some(ip) {
        TimesOfCount(history, key, now - WINDOW_MS, now);
        TimesOfBound(history, key, now);
        ExtendAdmitted(TimesOf(history, key), WINDOW_MS, MaxFor(key), now);
      }
    }
  }

  class ContactService {
    const limits: MemoryRateLimits
    /** The latest instant the service has seen */
    ghost var clock: int

    ghost predicate Valid()
      reads this, limits
    {
      && limits.Exact()
      && 0 <= clock
      && limits.sweptAt - RETENTION_MS <= limits.cutoff <= clock - RETENTION_MS
      && LimitedLog(limits.history, clock)
    }

    constructor ()
      ensures Valid() && fresh(limits) && limits.history == []
    {
      limits := new MemoryRateLimits();
      clock := 0;
    }

    /** `isLimited`: the pruned index gives the verdict of the full log. */
    method IsLimited(ip: string, now: int) returns (limited: bool)
      requires Valid() && clock <= now
      ensures limited == Limited(limits.history, ip, now)
      ensures limited <==>
                || |set i: nat | i < |limits.history| && limits.history[i].at > now - 600_000| >= 60
                || |set i: nat | i < |limits.history| && limits.history[i].at > now - 600_000 && limits.history[i].key == ip| >= 5
    {
      LimitedIff(limits.history, ip, now);
      var since := WindowStart(WINDOW_MS, now);
      var overall := limits.Count(None, since.value);
      if overall >= GLOBAL_MAX {
        return true;
      }
      var own := limits.Count(Some(ip), since.value);
      limited := own >= MAX_PER_IP;
    }

    /**
     * `submit` as one step of a non-decreasing clock. Every attempt that reaches the mailer is
     * recorded, delivered or not; a refused one is not.
     */
    method Submit(ip: string, now: int, recipients: nat, delivered: nat) returns (result: ContactResult)
      requires Valid() && clock <= now
      requires delivered <= recipients
      modifies this, limits
      ensures Valid() && clock == now
      ensures result == RateLimited <==> Limited(old(limits.history), ip, now)
      ensures result == Unconfigured <==> !Limited(old(limits.history), ip, now) && recipients == 0
      ensures result == Unreachable <==> !Limited(old(limits.history), ip, now) && recipients > 0 && delivered == 0
      ensures limits.history ==
              if result == Sent || result == Unreachable then old(limits.history) + [Hit(ip, now)]
              else old(limits.history)
    {
      var limited := IsLimited(ip, now);
      clock := now;
      if limited {
        return RateLimited;
      }
      if recipients == 0 {
        return Unconfigured;
      }
      RetainedHitsAreFew(limits.history, now, now);
      AdmittingKeepsTheLog(limits.history, now, ip, now);
      limits.Record(ip, now);
      result := if delivered == 0 then Unreachable else Sent;
    }

    /** The pruner's pass in between changes no later verdict: the log and the invariant stay. */
    method Prune(now: int)
      requires Valid() && clock <= now
      modifies this, limits
      ensures Valid() && clock == now && limits.history == old(limits.history)
    {
      var _ := limits.PruneExpired(now);
      clock := now;
    }
  }
}
