/**
 Exactly when the audit window holds in full. The source's comment says one audit row per IP and window;
 the reaper forgets the last row with the bucket, so that is so only when no bucket can refill, and be
 reaped, within the window.
 */
module RateLimiterWindow {
  import opened Wrappers
  import opened RateLimiter
  import opened RateLimiterLaw
  import opened RateLimiterAudit

  const IP := "192.0.2.1"

  function Burst(at: real, n: nat): seq<Event> {
    if n == 0 then [] else Burst(at, n - 1) + [Check(IP, at)]
  }

  lemma {:induction false} BurstLength(at: real, n: nat)
    ensures |Burst(at, n)| == n && forall e | e in Burst(at, n) :: e.at == at
  {
    if n > 0 { BurstLength(at, n - 1); }
  }

  /** A burst at one moment takes one token a request from a new bucket. */
  lemma {:induction false} BurstDrains(cfg: Config, before: seq<Event>, at: real, n: nat)
    requires Usable(cfg) && IP !in Run(cfg, before) && 1 <= n && n as real <= cfg.capacity
    ensures var m := Run(cfg, before + Burst(at, n));
            IP in m && m[IP] == Bucket(cfg.capacity - n as real, at, None)
  {
    var rest := before + Burst(at, n - 1);
    assert before + Burst(at, n) == rest + [Check(IP, at)];
    RunGrows(cfg, rest, Check(IP, at), IP);
    if n == 1 {
      assert rest == before;
    } else {
      BurstDrains(cfg, before, at, n - 1);
      GainAdds(cfg, at, at, at);
    }
  }

  /** Drain a bucket, be refused just short of a token, be reaped when full again, and start over. */
  function FirstHalf(n: nat, refused: real): seq<Event> {
    Burst(0.0, n) + [Check(IP, refused)]
  }

  function ShortCycle(n: nat, refused: real, reaped: real): seq<Event> {
    FirstHalf(n, refused) + [Reap(reaped)] + Burst(reaped, n) + [Check(IP, reaped)]
  }

  lemma FirstHalfIsAudited(cfg: Config, n: nat, refused: real)
    requires Usable(cfg) && cfg.capacity == n as real && refused >= 0.0
    requires 0.0 <= Gain(cfg, 0.0, refused) < 1.0
    ensures VerdictAfter(cfg, Burst(0.0, n), IP, refused) == Denied(true)
    ensures var m := Run(cfg, FirstHalf(n, refused));
            IP in m && m[IP] == Bucket(Gain(cfg, 0.0, refused), refused, Some(refused))
  {
    assert [] + Burst(0.0, n) == Burst(0.0, n);
    BurstDrains(cfg, [], 0.0, n);
    var drained := Run(cfg, Burst(0.0, n))[IP];
    assert CheckedBucket(cfg, drained, refused) == (Bucket(Gain(cfg, 0.0, refused), refused, Some(refused)),
        Denied(true));
    RunGrows(cfg, Burst(0.0, n), Check(IP, refused), IP);
  }

  lemma SecondHalfIsAudited(cfg: Config, before: seq<Event>, n: nat, reaped: real)
    requires Usable(cfg) && cfg.capacity == n as real
    requires IP in Run(cfg, before) && Full(cfg, Run(cfg, before)[IP], reaped)
    ensures VerdictAfter(cfg, before + [Reap(reaped)] + Burst(reaped, n), IP, reaped) == Denied(true)
  {
    RunGrows(cfg, before, Reap(reaped), IP);
    BurstDrains(cfg, before + [Reap(reaped)], reaped, n);
    GainAdds(cfg, reaped, reaped, reaped);
  }

  lemma CycleIsOrdered(n: nat, refused: real, reaped: real)
    requires 0.0 <= refused <= reaped
    ensures Ordered(ShortCycle(n, refused, reaped)) && |ShortCycle(n, refused, reaped)| == 2 * n + 3
  {
    BurstLength(0.0, n);
    BurstLength(reaped, n);
  }

  lemma AuditedWithin(cfg: Config, before: seq<Event>, at: real, after: seq<Event>)
    requires VerdictAfter(cfg, before, IP, at) == Denied(true)
    ensures AuditedAt(cfg, before + [Check(IP, at)] + after, |before|, IP)
    ensures (before + [Check(IP, at)] + after)[|before|].at == at
  {
    assert (before + [Check(IP, at)] + after)[..|before|] == before;
  }

  lemma CycleAuditsFirst(cfg: Config, n: nat, refused: real, reaped: real)
    requires Usable(cfg) && cfg.capacity == n as real && refused >= 0.0
    requires 0.0 <= Gain(cfg, 0.0, refused) < 1.0
    ensures var evs := ShortCycle(n, refused, reaped);
            AuditedAt(cfg, evs, n, IP) && evs[n].at == refused
  {
    BurstLength(0.0, n);
    FirstHalfIsAudited(cfg, n, refused);
    var burst, after := Burst(0.0, n), [Reap(reaped)] + Burst(reaped, n) + [Check(IP, reaped)];
    AuditedWithin(cfg, burst, refused, after);
    assert ShortCycle(n, refused, reaped) == burst + [Check(IP, refused)] + after;
  }

  lemma CycleAuditsSecond(cfg: Config, n: nat, refused: real, reaped: real)
    requires Usable(cfg) && cfg.capacity == n as real && refused >= 0.0
    requires 0.0 <= Gain(cfg, 0.0, refused) < 1.0
    requires Gain(cfg, 0.0, refused) + Gain(cfg, refused, reaped) >= cfg.capacity
    ensures var evs := ShortCycle(n, refused, reaped);
            AuditedAt(cfg, evs, 2 * n + 2, IP) && evs[2 * n + 2].at == reaped
  {
    BurstLength(0.0, n);
    BurstLength(reaped, n);
    FirstHalfIsAudited(cfg, n, refused);
    SecondHalfIsAudited(cfg, FirstHalf(n, refused), n, reaped);
    var before := FirstHalf(n, refused) + [Reap(reaped)] + Burst(reaped, n);
    AuditedWithin(cfg, before, reaped, []);
    assert ShortCycle(n, refused, reaped) == before + [Check(IP, reaped)] + [];
  }

  /** Any two audited denials of any IP in any run are at least a window apart. */
  ghost predicate FullWindow(cfg: Config) {
    forall evs: seq<Event>, ip, p: nat, q: nat
      | Ordered(evs) && p < q && AuditedAt(cfg, evs, p, ip) && AuditedAt(cfg, evs, q, ip) ::
      evs[q].at - evs[p].at >= WINDOW
  }

  lemma GainOver(cfg: Config, from: real, to: real, elapsed: real)
    requires to - from == elapsed
    ensures Gain(cfg, from, to) == elapsed * cfg.refill
  {
  }

  lemma GainIsPositive(cfg: Config, from: real, to: real)
    requires Usable(cfg) && from < to
    ensures Gain(cfg, from, to) > 0.0
  {
    ProductIsPositive(to - from, cfg.refill);
  }

  lemma ProductIsPositive(a: real, b: real)
    requires a > 0.0 && b > 0.0
    ensures a * b > 0.0
  {
  }

  /** Just short of one token's time, and then the time to refill the rest: together they fill the bucket. */
  lemma UnitsGain(cfg: Config, unit: real, part: real, refused: real, reaped: real)
    requires Usable(cfg) && unit * cfg.refill == 1.0 && 0.0 < part < unit
    requires refused == unit - part && reaped == refused + RefillTime(cfg) + part
    ensures 0.0 <= Gain(cfg, 0.0, refused) < 1.0 && refused <= reaped
    ensures Gain(cfg, 0.0, refused) + Gain(cfg, refused, reaped) == cfg.capacity
  {
    RefillTimeIsTime(cfg);
    GainOver(cfg, 0.0, unit, unit);
    GainOver(cfg, unit, reaped, RefillTime(cfg));
    GainIsPositive(cfg, 0.0, refused);
    GainIsPositive(cfg, refused, unit);
    GainAdds(cfg, 0.0, refused, unit);
    GainAdds(cfg, 0.0, refused, reaped);
    GainAdds(cfg, 0.0, unit, reaped);
  }

  lemma ShortRefillBreaksTheWindow(cfg: Config, n: nat)
    requires Usable(cfg) && cfg.capacity == n as real && RefillTime(cfg) < WINDOW
    ensures !FullWindow(cfg)
  {
    var slack := WINDOW - RefillTime(cfg);
    var unit := 1.0 / cfg.refill;
    QuotientTimes(1.0, cfg.refill);
    var part := if slack < unit then slack / 2.0 else unit / 2.0;
    var refused := unit - part;
    var reaped := refused + RefillTime(cfg) + part;
    UnitsGain(cfg, unit, part, refused, reaped);
    CycleIsOrdered(n, refused, reaped);
    CycleAuditsFirst(cfg, n, refused, reaped);
    CycleAuditsSecond(cfg, n, refused, reaped);
    var evs := ShortCycle(n, refused, reaped);
    assert evs[2 * n + 2].at - evs[n].at < WINDOW;
  }

  /** The window holds in full exactly when refilling an empty bucket takes at least that long. */
  lemma FullWindowIff(cfg: Config, n: nat)
    requires Usable(cfg) && cfg.capacity == n as real
    ensures FullWindow(cfg) <==> RefillTime(cfg) >= WINDOW
  {
    if RefillTime(cfg) < WINDOW {
      ShortRefillBreaksTheWindow(cfg, n);
    } else {
      forall evs: seq<Event>, ip, p: nat, q: nat
        | Ordered(evs) && p < q && AuditedAt(cfg, evs, p, ip) && AuditedAt(cfg, evs, q, ip)
        ensures evs[q].at - evs[p].at >= WINDOW
      {
        AuditsAreApart(cfg, evs, ip, p, q);
      }
    }
  }

  /** So it does not hold with the defaults, whose refill takes 54 seconds. */
  lemma DefaultsBreakTheWindow()
    ensures !FullWindow(Configure(0, 0.0))
  {
    FullWindowIff(Configure(0, 0.0), 10);
    assert RefillTime(Configure(0, 0.0)) == 54.0;
  }
}
