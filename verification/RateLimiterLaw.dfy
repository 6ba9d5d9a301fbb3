/**
 What the limiter lets through, stated without buckets: on a clock that does not run backwards a
 request is allowed exactly when no earlier allowed one makes a burst of it, and reaps change nothing.
 */
module RateLimiterLaw {
  import opened Wrappers
  import opened RateLimiter

  /** Gains over consecutive intervals add up, and time brings no loss. */
  lemma GainAdds(cfg: Config, a: real, b: real, c: real)
    requires Usable(cfg)
    ensures Gain(cfg, a, b) + Gain(cfg, b, c) == Gain(cfg, a, c)
    ensures a <= b ==> Gain(cfg, a, b) >= 0.0
  {
    assert (b - a) * cfg.refill + (c - b) * cfg.refill == ((b - a) + (c - b)) * cfg.refill;
  }

  lemma GainIsMonotone(cfg: Config, a: real, b: real, c: real, d: real)
    requires Usable(cfg) && a <= b && c <= d
    ensures Gain(cfg, b, c) <= Gain(cfg, a, d)
  {
    GainAdds(cfg, a, b, c);
    GainAdds(cfg, a, c, d);
    GainAdds(cfg, c, d, d);
  }

  function Min(a: real, b: real): real {
    if a <= b then a else b
  }

  /** The tokens at `now` of a bucket that was full before it allowed requests at the given times. */
  function Level(cfg: Config, times: seq<real>, now: real): real
    decreases |times|
  {
    if times == [] then cfg.capacity
    else
      var n := |times| - 1;
      Min(cfg.capacity, Level(cfg, times[..n], times[n]) - 1.0 + Gain(cfg, times[n], now))
  }

  /** No burst ending at `now` from any earlier allowed request on exceeds what the bucket could hold, less `spare`. */
  ghost predicate Fits(cfg: Config, times: seq<real>, now: real, spare: real) {
    && spare <= cfg.capacity
    && forall j | 0 <= j < |times| ::
         (|times| - j) as real + spare <= cfg.capacity + Gain(cfg, times[j], now)
  }

  lemma {:induction false} LevelIsTheTightestBurst(cfg: Config, times: seq<real>, now: real, spare: real)
    requires Usable(cfg)
    ensures Level(cfg, times, now) >= spare <==> Fits(cfg, times, now, spare)
    decreases |times|
  {
    if times != [] {
      var n := |times| - 1;
      var before, last := times[..n], times[n];
      var spare' := spare + 1.0 - Gain(cfg, last, now);
      LevelIsTheTightestBurst(cfg, before, last, spare');
      forall j | 0 <= j < n
        ensures ((n - j) as real + spare' <= cfg.capacity + Gain(cfg, before[j], last)) <==>
                ((|times| - j) as real + spare <= cfg.capacity + Gain(cfg, times[j], now))
      {
        GainAdds(cfg, times[j], last, now);
      }
      assert Fits(cfg, before, last, spare') && spare <= cfg.capacity <==> Fits(cfg, times, now, spare) by {
        if Fits(cfg, times, now, spare) {
          assert (|times| - n) as real + spare <= cfg.capacity + Gain(cfg, times[n], now);
        }
      }
    }
  }

  ghost predicate Before(times: seq<real>, now: real) {
    times != [] ==> times[|times| - 1] <= now
  }

  lemma LevelAdvances(cfg: Config, times: seq<real>, now: real, later: real)
    requires Usable(cfg) && Before(times, now) && now <= later
    ensures Level(cfg, times, later) == Min(cfg.capacity, Level(cfg, times, now) + Gain(cfg, now, later))
  {
    GainAdds(cfg, now, later, later);
    if times != [] {
      GainAdds(cfg, times[|times| - 1], now, later);
    }
  }

  // ---- The buckets compute the level ----

  ghost predicate Matches(cfg: Config, m: Buckets, ip: string, times: seq<real>, now: real) {
    && Before(times, now)
    && if ip in m
       then && m[ip].lastUpdate <= now && Before(times, m[ip].lastUpdate)
            && 0.0 <= m[ip].tokens == Level(cfg, times, m[ip].lastUpdate)
       else Level(cfg, times, now) == cfg.capacity
  }

  lemma TimeMatches(cfg: Config, m: Buckets, ip: string, times: seq<real>, now: real, at: real)
    requires Usable(cfg) && Matches(cfg, m, ip, times, now) && now <= at
    ensures Matches(cfg, m, ip, times, at)
  {
    LevelAdvances(cfg, times, now, at);
    GainAdds(cfg, now, at, at);
  }

  /** One more allowed request takes one token. */
  lemma LevelAfterOne(cfg: Config, times: seq<real>, at: real)
    requires Usable(cfg)
    ensures Level(cfg, times, at) <= cfg.capacity && Level(cfg, times + [at], at) == Level(cfg, times, at) - 1.0
  {
    GainAdds(cfg, at, at, at);
    assert (times + [at])[..|times|] == times;
  }

  lemma RefillReachesLevel(cfg: Config, b: Bucket, times: seq<real>, at: real)
    requires Usable(cfg) && Before(times, b.lastUpdate) && b.lastUpdate <= at
    requires 0.0 <= b.tokens == Level(cfg, times, b.lastUpdate)
    ensures Refilled(cfg, b, at) == Level(cfg, times, at) >= 0.0
  {
    LevelAdvances(cfg, times, b.lastUpdate, at);
    GainAdds(cfg, b.lastUpdate, at, at);
  }

  lemma CheckMatches(cfg: Config, m: Buckets, ip: string, times: seq<real>, now: real, at: real)
    requires Usable(cfg) && Matches(cfg, m, ip, times, now) && now <= at
    ensures var (m', v) := Checked(cfg, m, ip, at);
            && (v.Allowed? <==> Level(cfg, times, at) >= 1.0)
            && Matches(cfg, m', ip, if v.Allowed? then times + [at] else times, at)
  {
    LevelAfterOne(cfg, times, at);
    if ip in m {
      RefillReachesLevel(cfg, m[ip], times, at);
    } else {
      TimeMatches(cfg, m, ip, times, now, at);
    }
  }

  lemma ReapMatches(cfg: Config, m: Buckets, ip: string, times: seq<real>, now: real, at: real)
    requires Usable(cfg) && Matches(cfg, m, ip, times, now) && now <= at
    ensures Matches(cfg, Reaped(cfg, m, at), ip, times, at)
  {
    TimeMatches(cfg, m, ip, times, now, at);
    if ip in m {
      LevelAdvances(cfg, times, m[ip].lastUpdate, at);
    }
  }

  lemma ApplyMatches(cfg: Config, before: seq<Event>, e: Event, ip: string)
    requires Usable(cfg) && Matches(cfg, Run(cfg, before), ip, AllowedTimes(cfg, before, ip), e.at)
    ensures Matches(cfg, Run(cfg, before + [e]), ip, AllowedTimes(cfg, before + [e], ip), e.at)
  {
    RunGrows(cfg, before, e, ip);
    var m, times := Run(cfg, before), AllowedTimes(cfg, before, ip);
    if e.Reap? {
      ReapMatches(cfg, m, ip, times, e.at, e.at);
    } else if e.ip == ip {
      CheckMatches(cfg, m, ip, times, e.at, e.at);
    }
  }

  lemma RunGrows(cfg: Config, before: seq<Event>, e: Event, ip: string)
    ensures Run(cfg, before + [e]) == Apply(cfg, Run(cfg, before), e)
    ensures var times := AllowedTimes(cfg, before, ip);
            AllowedTimes(cfg, before + [e], ip) ==
            if e.Check? && e.ip == ip && VerdictAfter(cfg, before, ip, e.at).Allowed? then times + [e.at] else times
  {
    assert (before + [e])[..|before|] == before;
  }

  lemma {:induction false} RunMatches(cfg: Config, evs: seq<Event>, ip: string, at: real)
    requires Usable(cfg) && Ordered(evs) && NotBefore(evs, at)
    ensures Matches(cfg, Run(cfg, evs), ip, AllowedTimes(cfg, evs, ip), at)
    decreases |evs|
  {
    if evs != [] {
      var before, e := evs[..|evs| - 1], evs[|evs| - 1];
      RunMatches(cfg, before, ip, e.at);
      ApplyMatches(cfg, before, e, ip);
      assert before + [e] == evs;
      TimeMatches(cfg, Run(cfg, evs), ip, AllowedTimes(cfg, evs, ip), e.at, at);
    }
  }

  /**
   The law: after any run of checks of any IPs and of reaps, a request at `at` is allowed exactly when
   for every earlier allowed request of its IP, the allowed ones from that one on, and this one, number
   at most the capacity plus what refills in between.
   */
  lemma AllowedExactlyWhenItFits(cfg: Config, evs: seq<Event>, ip: string, at: real)
    requires Usable(cfg) && Ordered(evs) && NotBefore(evs, at)
    ensures var times := AllowedTimes(cfg, evs, ip);
            VerdictAfter(cfg, evs, ip, at).Allowed? <==>
            forall j | 0 <= j < |times| :: (|times| - j) as real + 1.0 <= cfg.capacity + Gain(cfg, times[j], at)
  {
    var times := AllowedTimes(cfg, evs, ip);
    AllowedMeansFits(cfg, evs, ip, at);
    assert Fits(cfg, times, at, 1.0) <==>
           forall j | 0 <= j < |times| :: (|times| - j) as real + 1.0 <= cfg.capacity + Gain(cfg, times[j], at);
  }

  lemma AllowedMeansFits(cfg: Config, evs: seq<Event>, ip: string, at: real)
    requires Usable(cfg) && Ordered(evs) && NotBefore(evs, at)
    ensures VerdictAfter(cfg, evs, ip, at).Allowed? <==> Fits(cfg, AllowedTimes(cfg, evs, ip), at, 1.0)
  {
    RunMatches(cfg, evs, ip, at);
    CheckMatches(cfg, Run(cfg, evs), ip, AllowedTimes(cfg, evs, ip), at, at);
    LevelIsTheTightestBurst(cfg, AllowedTimes(cfg, evs, ip), at, 1.0);
  }

  // ---- Windows ----

  ghost predicate Ascending(times: seq<real>) {
    forall i, j | 0 <= i < j < |times| :: times[i] <= times[j]
  }

  ghost predicate NoneAfter(times: seq<real>, at: real) {
    forall i | 0 <= i < |times| :: times[i] <= at
  }

  lemma AscendingGrows(times: seq<real>, at: real, later: real)
    requires Ascending(times) && NoneAfter(times, at) && at <= later
    ensures NoneAfter(times, later)
    ensures Ascending(times + [at]) && NoneAfter(times + [at], later)
  {
  }

  lemma {:induction false} TimesAreOrdered(cfg: Config, evs: seq<Event>, ip: string, at: real)
    requires Ordered(evs) && NotBefore(evs, at)
    ensures Ascending(AllowedTimes(cfg, evs, ip)) && NoneAfter(AllowedTimes(cfg, evs, ip), at)
    decreases |evs|
  {
    if evs != [] {
      var before, e := evs[..|evs| - 1], evs[|evs| - 1];
      TimesAreOrdered(cfg, before, ip, e.at);
      AscendingGrows(AllowedTimes(cfg, before, ip), e.at, at);
    }
  }

  /** Any stretch of allowed requests of an IP numbers at most the capacity plus what refills over it. */
  lemma {:induction false} StretchesAreBounded(cfg: Config, evs: seq<Event>, ip: string, i: nat, j: nat)
    requires Usable(cfg) && Ordered(evs)
    requires i <= j < |AllowedTimes(cfg, evs, ip)|
    ensures var times := AllowedTimes(cfg, evs, ip);
            (j - i + 1) as real <= cfg.capacity + Gain(cfg, times[i], times[j])
    decreases |evs|
  {
    var before, e := evs[..|evs| - 1], evs[|evs| - 1];
    var times := AllowedTimes(cfg, before, ip);
    if j < |times| {
      StretchesAreBounded(cfg, before, ip, i, j);
    } else {
      assert VerdictAfter(cfg, before, ip, e.at).Allowed? && AllowedTimes(cfg, evs, ip) == times + [e.at];
      AllowedMeansFits(cfg, before, ip, e.at);
      GainAdds(cfg, e.at, e.at, e.at);
      if i < |times| {
        assert (|times| - i) as real + 1.0 <= cfg.capacity + Gain(cfg, times[i], e.at);
      }
    }
  }

  function CountIn(times: seq<real>, from: real, to: real): nat {
    if times == [] then 0
    else CountIn(times[..|times| - 1], from, to) + if from <= times[|times| - 1] <= to then 1 else 0
  }

  /** A nonempty count spans a first and a last time in the window. */
  lemma {:induction false} CountSpans(times: seq<real>, from: real, to: real) returns (i: nat, j: nat)
    requires CountIn(times, from, to) > 0
    ensures i <= j < |times| && from <= times[i] && times[j] <= to && CountIn(times, from, to) <= j - i + 1
    decreases |times|
  {
    var n := |times| - 1;
    var rest := times[..n];
    if CountIn(rest, from, to) == 0 {
      return n, n;
    }
    i, j := CountSpans(rest, from, to);
    if from <= times[n] <= to {
      j := n;
    }
  }

  /** At most capacity + refill x length of one IP's requests pass in any window, reaps included. */
  lemma WindowsAreBounded(cfg: Config, evs: seq<Event>, ip: string, from: real, to: real)
    requires Usable(cfg) && Ordered(evs) && from <= to
    ensures CountIn(AllowedTimes(cfg, evs, ip), from, to) as real <= cfg.capacity + Gain(cfg, from, to)
  {
    var times := AllowedTimes(cfg, evs, ip);
    GainAdds(cfg, from, to, to);
    if CountIn(times, from, to) > 0 {
      var i, j := CountSpans(times, from, to);
      TimesAreOrdered(cfg, evs, ip, evs[|evs| - 1].at);
      StretchesAreBounded(cfg, evs, ip, i, j);
      GainIsMonotone(cfg, from, times[i], times[j], to);
    }
  }

  // ---- The reaper is invisible ----

  function WithoutReaps(evs: seq<Event>): seq<Event>
    decreases |evs|
  {
    if evs == [] then []
    else
      var rest := WithoutReaps(evs[..|evs| - 1]);
      if evs[|evs| - 1].Check? then rest + [evs[|evs| - 1]] else rest
  }

  /** Whether each check of a run was allowed, in order. */
  function Decisions(cfg: Config, evs: seq<Event>): seq<bool>
    decreases |evs|
  {
    if evs == [] then []
    else
      var before, e := evs[..|evs| - 1], evs[|evs| - 1];
      var rest := Decisions(cfg, before);
      if e.Check? then rest + [VerdictAfter(cfg, before, e.ip, e.at).Allowed?] else rest
  }

  lemma {:induction false} ErasureIsOrdered(evs: seq<Event>, at: real)
    requires Ordered(evs) && NotBefore(evs, at)
    ensures Ordered(WithoutReaps(evs)) && NotBefore(WithoutReaps(evs), at)
    ensures forall e | e in WithoutReaps(evs) :: e in evs
    decreases |evs|
  {
    if evs != [] {
      ErasureIsOrdered(evs[..|evs| - 1], evs[|evs| - 1].at);
    }
  }

  lemma {:induction false} ReapsChangeNoDecision(cfg: Config, evs: seq<Event>, ip: string)
    requires Usable(cfg) && Ordered(evs)
    ensures AllowedTimes(cfg, evs, ip) == AllowedTimes(cfg, WithoutReaps(evs), ip)
    decreases |evs|
  {
    if evs != [] {
      var before, e := evs[..|evs| - 1], evs[|evs| - 1];
      ReapsChangeNoDecision(cfg, before, ip);
      if e.Check? {
        RunGrows(cfg, WithoutReaps(before), e, ip);
        SameVerdict(cfg, before, ip, e.at);
      }
    }
  }

  lemma SameVerdict(cfg: Config, evs: seq<Event>, ip: string, at: real)
    requires Usable(cfg) && Ordered(evs) && NotBefore(evs, at)
    requires AllowedTimes(cfg, evs, ip) == AllowedTimes(cfg, WithoutReaps(evs), ip)
    ensures VerdictAfter(cfg, evs, ip, at).Allowed? == VerdictAfter(cfg, WithoutReaps(evs), ip, at).Allowed?
  {
    ErasureIsOrdered(evs, at);
    AllowedMeansFits(cfg, evs, ip, at);
    AllowedMeansFits(cfg, WithoutReaps(evs), ip, at);
  }

  /** Erasing every reap of a run, whenever they ran, leaves every allow or deny as it was. */
  lemma {:induction false} ReaperIsInvisible(cfg: Config, evs: seq<Event>)
    requires Usable(cfg) && Ordered(evs)
    ensures Decisions(cfg, evs) == Decisions(cfg, WithoutReaps(evs))
    decreases |evs|
  {
    if evs != [] {
      var before, e := evs[..|evs| - 1], evs[|evs| - 1];
      ReaperIsInvisible(cfg, before);
      if e.Check? {
        var w := WithoutReaps(before) + [e];
        assert w[..|w| - 1] == WithoutReaps(before);
        ReapsChangeNoDecision(cfg, before, e.ip);
        SameVerdict(cfg, before, e.ip, e.at);
      }
    }
  }
}
