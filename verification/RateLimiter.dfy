/**
 The per-IP token bucket (auth/internal/middleware/ratelimit.go). Tokens and seconds are reals; a zero
 lastAuditAt is None, which is longer ago than any window.
 */
module RateLimiter {
  import opened Wrappers

  datatype Config = Config(capacity: real, refill: real)

  const DEFAULT_CAPACITY := 10.0
  const DEFAULT_REFILL := 1.0 / 6.0

  /** auditCoalesceWindow, in seconds. */
  const WINDOW := 60.0

  ghost predicate Usable(cfg: Config) {
    cfg.capacity >= 1.0 && cfg.refill > 0.0
  }

  /** NewRateLimiter: anything not positive falls back to its default. */
  function Configure(capacity: int, refill: real): (cfg: Config)
    ensures Usable(cfg)
    ensures capacity >= 1 && refill > 0.0 ==> cfg == Config(capacity as real, refill)
  {
    Config(if capacity <= 0 then DEFAULT_CAPACITY else capacity as real,
           if refill <= 0.0 then DEFAULT_REFILL else refill)
  }

  datatype Bucket = Bucket(tokens: real, lastUpdate: real, lastAuditAt: Option<real>)

  datatype Verdict = Allowed | Denied(audited: bool)

  type Buckets = map<string, Bucket>

  /** What accrues between two clock readings; negative when the clock steps back. */
  function Gain(cfg: Config, since: real, now: real): real {
    (now - since) * cfg.refill
  }

  /** Refill by the elapsed time, then clamp to the capacity and to zero, in this order. */
  function Refilled(cfg: Config, b: Bucket, now: real): real {
    var t := b.tokens + Gain(cfg, b.lastUpdate, now);
    var t' := if t > cfg.capacity then cfg.capacity else t;
    if t' < 0.0 then 0.0 else t'
  }

  function CheckedBucket(cfg: Config, b: Bucket, now: real): (Bucket, Verdict) {
    var t := Refilled(cfg, b, now);
    if t >= 1.0 then (Bucket(t - 1.0, now, b.lastAuditAt), Allowed)
    else if b.lastAuditAt.None? || now - b.lastAuditAt.value >= WINDOW then (Bucket(t, now, Some(now)), Denied(true))
    else (Bucket(t, now, b.lastAuditAt), Denied(false))
  }

  function Checked(cfg: Config, m: Buckets, ip: string, now: real): (Buckets, Verdict) {
    if ip !in m then (m[ip := Bucket(cfg.capacity - 1.0, now, None)], Allowed)
    else
      var (b, v) := CheckedBucket(cfg, m[ip], now);
      (m[ip := b], v)
  }

  predicate Full(cfg: Config, b: Bucket, now: real) {
    b.tokens + Gain(cfg, b.lastUpdate, now) >= cfg.capacity
  }

  function Reaped(cfg: Config, m: Buckets, now: real): Buckets {
    map ip | ip in m && !Full(cfg, m[ip], now) :: m[ip]
  }

  // ---- Runs: checks of many IPs and reaps, in the order they took the mutex ----

  datatype Event = Check(ip: string, at: real) | Reap(at: real)

  function Apply(cfg: Config, m: Buckets, e: Event): Buckets {
    match e
    case Check(ip, at) => Checked(cfg, m, ip, at).0
    case Reap(at) => Reaped(cfg, m, at)
  }

  function Run(cfg: Config, evs: seq<Event>): Buckets
    decreases |evs|
  {
    if evs == [] then map[] else Apply(cfg, Run(cfg, evs[..|evs| - 1]), evs[|evs| - 1])
  }

  /** The verdict of the check an event is, after the events before it. */
  function VerdictAfter(cfg: Config, before: seq<Event>, ip: string, at: real): Verdict {
    Checked(cfg, Run(cfg, before), ip, at).1
  }

  /** When the IP's allowed requests of a run were made. */
  function AllowedTimes(cfg: Config, evs: seq<Event>, ip: string): seq<real>
    decreases |evs|
  {
    if evs == [] then []
    else
      var before, e := evs[..|evs| - 1], evs[|evs| - 1];
      var times := AllowedTimes(cfg, before, ip);
      if e.Check? && e.ip == ip && VerdictAfter(cfg, before, ip, e.at).Allowed? then times + [e.at] else times
  }

  ghost predicate Ordered(evs: seq<Event>) {
    forall i, j | 0 <= i < j < |evs| :: evs[i].at <= evs[j].at
  }

  /** `at` is no earlier than any event. */
  ghost predicate NotBefore(evs: seq<Event>, at: real) {
    evs != [] ==> evs[|evs| - 1].at <= at
  }

  // ---- The object ----

  /** One IP's state, updated in place. */
  class Cell {
    var tokens: real
    var lastUpdate: real
    var lastAuditAt: Option<real>

    constructor (tokens: real, lastUpdate: real)
      ensures Value() == Bucket(tokens, lastUpdate, None)
    {
      this.tokens := tokens;
      this.lastUpdate := lastUpdate;
      lastAuditAt := None;
    }

    ghost function Value(): Bucket
      reads this
    {
      Bucket(tokens, lastUpdate, lastAuditAt)
    }

    /** The part of check after the bucket has been found. */
    method Take(cfg: Config, now: real) returns (allowed: bool, shouldAudit: bool)
      modifies this
      ensures (Value(), if allowed then Allowed else Denied(shouldAudit)) == CheckedBucket(cfg, old(Value()), now)
      ensures allowed ==> !shouldAudit
    {
      tokens := tokens + Gain(cfg, lastUpdate, now);
      if tokens > cfg.capacity {
        tokens := cfg.capacity;
      }
      if tokens < 0.0 {
        tokens := 0.0;
      }
      lastUpdate := now;
      if tokens < 1.0 {
        if lastAuditAt.None? || now - lastAuditAt.value >= WINDOW {
          lastAuditAt := Some(now);
          return false, true;
        }
        return false, false;
      }
      tokens := tokens - 1.0;
      return true, false;
    }
  }

  class Limiter {
    const cfg: Config
    var buckets: map<string, Cell>

    ghost predicate Valid()
      reads this
    {
      forall a, b | a in buckets && b in buckets && a != b :: buckets[a] != buckets[b]
    }

    ghost function Contents(): Buckets
      reads this, buckets.Values
    {
      map ip | ip in buckets :: buckets[ip].Value()
    }

    constructor (capacity: int, refill: real)
      ensures Valid() && Contents() == map[]
      ensures cfg == Configure(capacity, refill)
    {
      cfg := Configure(capacity, refill);
      buckets := map[];
    }

    method Check(ip: string, now: real) returns (allowed: bool, shouldAudit: bool)
      requires Valid()
      modifies this, buckets.Values
      ensures Valid()
      ensures (Contents(), if allowed then Allowed else Denied(shouldAudit)) == Checked(cfg, old(Contents()), ip, now)
      ensures allowed ==> !shouldAudit
    {
      if ip !in buckets {
        var b := new Cell(cfg.capacity - 1.0, now);
        buckets := buckets[ip := b];
        assert Contents() == old(Contents())[ip := b.Value()];
        return true, false;
      }
      assert buckets[ip] in buckets.Values;
      allowed, shouldAudit := buckets[ip].Take(cfg, now);
      assert Contents() == old(Contents())[ip := buckets[ip].Value()];
    }

    method Reap(now: real)
      requires Valid()
      modifies this
      ensures Valid() && Contents() == Reaped(cfg, old(Contents()), now)
    {
      ghost var before := Contents();
      var todo := buckets.Keys;
      while todo != {}
        invariant todo <= buckets.Keys <= old(buckets).Keys
        invariant forall ip | ip in buckets :: buckets[ip] == old(buckets)[ip]
        invariant forall ip | ip in old(buckets) && ip !in todo :: ip in buckets <==> !Full(cfg, before[ip], now)
        decreases todo
      {
        var ip :| ip in todo;
        todo := todo - {ip};
        var b := buckets[ip];
        var refilled := b.tokens + Gain(cfg, b.lastUpdate, now);
        if refilled >= cfg.capacity {
          buckets := buckets - {ip};
        }
      }
    }
  }
}
