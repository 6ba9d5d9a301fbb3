/**
 How often the limiter writes an audit row for one IP, on a clock that does not run backwards, and what
 still holds of its buckets on a clock that does.
 */
module RateLimiterAudit {
  import opened Wrappers
  import opened RateLimiter
  import opened RateLimiterLaw

  // ---- Audited denials ----

  /** The last audited denial of an IP in a run: when, and whether its bucket has been reaped since. */
  datatype Audit = Audit(at: real, reaped: bool)

  ghost function LastAudit(cfg: Config, evs: seq<Event>, ip: string): Option<Audit>
    decreases |evs|
  {
    if evs == [] then None
    else
      var before, e := evs[..|evs| - 1], evs[|evs| - 1];
      var a := LastAudit(cfg, before, ip);
      if e.Check? && e.ip == ip && VerdictAfter(cfg, before, ip, e.at) == Denied(true) then Some(Audit(e.at, false))
      else if e.Reap? && a.Some? && ip in Run(cfg, before) && ip !in Run(cfg, evs) then Some(Audit(a.value.at, true))
      else a
  }

  /** After a denial an empty bucket fills for at least this long before it can be reaped. */
  function RefillTime(cfg: Config): real
    requires Usable(cfg)
  {
    (cfg.capacity - 1.0) / cfg.refill
  }

  ghost predicate Remembers(cfg: Config, m: Buckets, ip: string, a: Option<Audit>, now: real)
    requires Usable(cfg)
  {
    && (ip in m ==> m[ip].lastUpdate <= now && m[ip].tokens >= 0.0)
    && match a
       case None => ip in m ==> m[ip].lastAuditAt.None?
       case Some(Audit(x, false)) =>
         x <= now && ip in m && m[ip].lastAuditAt == Some(x) && m[ip].tokens < 1.0 + Gain(cfg, x, m[ip].lastUpdate)
       case Some(Audit(x, true)) =>
         x + RefillTime(cfg) <= now && (ip in m ==> m[ip].lastAuditAt.None?)
  }

  lemma RefillTimeIsTime(cfg: Config)
    requires Usable(cfg)
    ensures RefillTime(cfg) >= 0.0 && RefillTime(cfg) * cfg.refill == cfg.capacity - 1.0
  {
    QuotientTimes(cfg.capacity - 1.0, cfg.refill);
  }

  lemma QuotientTimes(a: real, b: real)
    requires a >= 0.0 && b > 0.0
    ensures a / b >= 0.0 && (a / b) * b == a
    ensures a > 0.0 ==> a / b > 0.0
  {
  }

  lemma ProductsCompare(a: real, b: real, c: real)
    requires c > 0.0 && a * c >= b * c
    ensures a >= b
  {
    assert a < b ==> (b - a) * c > 0.0;
  }

  /** A gain of capacity - 1 takes RefillTime. */
  lemma GainTakesTime(cfg: Config, x: real, now: real)
    requires Usable(cfg) && Gain(cfg, x, now) >= cfg.capacity - 1.0
    ensures x + RefillTime(cfg) <= now
  {
    RefillTimeIsTime(cfg);
    ProductsCompare(now - x, RefillTime(cfg), cfg.refill);
  }

  ghost function AuditAfter(cfg: Config, m: Buckets, e: Event, ip: string, a: Option<Audit>): Option<Audit> {
    if e.Check? && e.ip == ip && Checked(cfg, m, ip, e.at).1 == Denied(true) then Some(Audit(e.at, false))
    else if e.Reap? && a.Some? && ip in m && ip !in Reaped(cfg, m, e.at) then Some(Audit(a.value.at, true))
    else a
  }

  lemma CheckRemembers(cfg: Config, m: Buckets, ip: string, a: Option<Audit>, now: real, at: real)
    requires Usable(cfg) && Remembers(cfg, m, ip, a, now) && now <= at
    ensures Remembers(cfg, Checked(cfg, m, ip, at).0, ip, AuditAfter(cfg, m, Check(ip, at), ip, a), at)
  {
    if ip in m {
      GainAdds(cfg, m[ip].lastUpdate, at, at);
      if a.Some? {
        GainAdds(cfg, a.value.at, m[ip].lastUpdate, at);
      }
      GainAdds(cfg, at, at, at);
    }
  }

  lemma ReapRemembers(cfg: Config, m: Buckets, ip: string, a: Option<Audit>, now: real, at: real)
    requires Usable(cfg) && Remembers(cfg, m, ip, a, now) && now <= at
    ensures Remembers(cfg, Reaped(cfg, m, at), ip, AuditAfter(cfg, m, Reap(at), ip, a), at)
  {
    if ip in m && Full(cfg, m[ip], at) && a.Some? {
      GainAdds(cfg, a.value.at, m[ip].lastUpdate, at);
      if !a.value.reaped {
        GainTakesTime(cfg, a.value.at, at);
      }
    }
  }

  lemma {:induction false} RunRemembers(cfg: Config, evs: seq<Event>, ip: string, at: real)
    requires Usable(cfg) && Ordered(evs) && NotBefore(evs, at)
    ensures Remembers(cfg, Run(cfg, evs), ip, LastAudit(cfg, evs, ip), at)
    decreases |evs|
  {
    if evs != [] {
      var before, e := evs[..|evs| - 1], evs[|evs| - 1];
      RunRemembers(cfg, before, ip, e.at);
      var m, a := Run(cfg, before), LastAudit(cfg, before, ip);
      if e.Reap? {
        ReapRemembers(cfg, m, ip, a, e.at, e.at);
      } else if e.ip == ip {
        CheckRemembers(cfg, m, ip, a, e.at, e.at);
      }
    }
  }

  /** Event k of the run is an audited denial of the IP. */
  ghost predicate AuditedAt(cfg: Config, evs: seq<Event>, k: nat, ip: string) {
    k < |evs| && evs[k].Check? && evs[k].ip == ip && VerdictAfter(cfg, evs[..k], ip, evs[k].at) == Denied(true)
  }

  /** Event k of the run takes the IP's bucket away. */
  ghost predicate ReapedAt(cfg: Config, evs: seq<Event>, k: nat, ip: string) {
    k < |evs| && evs[k].Reap? && ip in Run(cfg, evs[..k]) && ip !in Run(cfg, evs[..k + 1])
  }

  /** LastAudit points at an audited denial, and at none that a later one follows. */
  lemma {:induction false} LastAuditIsLast(cfg: Config, evs: seq<Event>, ip: string, n: nat)
    requires n <= |evs| && Ordered(evs)
    ensures var a := LastAudit(cfg, evs[..n], ip);
            && (a.Some? ==> exists p | 0 <= p < n :: AuditedAt(cfg, evs, p, ip) && evs[p].at == a.value.at)
            && (forall p | 0 <= p < n && AuditedAt(cfg, evs, p, ip) ::
                  && a.Some? && evs[p].at <= a.value.at
                  && ((forall k | p < k < n :: !ReapedAt(cfg, evs, k, ip)) ==> !a.value.reaped))
    decreases n
  {
    if n > 0 {
      assert evs[..n][..n - 1] == evs[..n - 1];
      LastAuditIsLast(cfg, evs, ip, n - 1);
      assert evs[..n - 1 + 1] == evs[..n];
      assert ReapedAt(cfg, evs, n - 1, ip) <==>
             evs[n - 1].Reap? && ip in Run(cfg, evs[..n - 1]) && ip !in Run(cfg, evs[..n]);
      assert AuditedAt(cfg, evs, n - 1, ip) <==>
             evs[n - 1].Check? && evs[n - 1].ip == ip && VerdictAfter(cfg, evs[..n - 1], ip, evs[n - 1].at)
                 == Denied(true);
    }
  }

  lemma PrefixIsOrdered(evs: seq<Event>, k: nat)
    requires k < |evs| && Ordered(evs)
    ensures Ordered(evs[..k]) && NotBefore(evs[..k], evs[k].at)
  {
  }

  /**
   Coalescing: two audited denials of one IP are at least the smaller of the window and the refill time
   apart; the full window when the bucket was not reaped in between.
   */
  lemma AuditsAreApart(cfg: Config, evs: seq<Event>, ip: string, p: nat, q: nat)
    requires Usable(cfg) && Ordered(evs) && p < q
    requires AuditedAt(cfg, evs, p, ip) && AuditedAt(cfg, evs, q, ip)
    ensures evs[q].at - evs[p].at >= Min(WINDOW, RefillTime(cfg))
    ensures (forall k | p < k < q :: !ReapedAt(cfg, evs, k, ip)) ==> evs[q].at - evs[p].at >= WINDOW
  {
    PrefixIsOrdered(evs, q);
    RunRemembers(cfg, evs[..q], ip, evs[q].at);
    LastAuditIsLast(cfg, evs, ip, q);
  }

  /** Every denial that is not audited follows an audited one of its IP by less than the window. */
  lemma UnauditedFollowsAudited(cfg: Config, evs: seq<Event>, ip: string, q: nat) returns (p: nat)
    requires Usable(cfg) && Ordered(evs) && q < |evs|
    requires evs[q].Check? && evs[q].ip == ip && VerdictAfter(cfg, evs[..q], ip, evs[q].at) == Denied(false)
    ensures p < q && AuditedAt(cfg, evs, p, ip) && evs[q].at - evs[p].at < WINDOW
  {
    PrefixIsOrdered(evs, q);
    RunRemembers(cfg, evs[..q], ip, evs[q].at);
    LastAuditIsLast(cfg, evs, ip, q);
    p :| 0 <= p < q && AuditedAt(cfg, evs, p, ip) && evs[p].at == LastAudit(cfg, evs[..q], ip).value.at;
  }

  /** With the default settings that is 54 seconds, short of the minute the source's comment promises. */
  lemma DefaultAuditsAreApart(evs: seq<Event>, ip: string, p: nat, q: nat)
    requires Ordered(evs) && p < q
    requires AuditedAt(Configure(0, 0.0), evs, p, ip) && AuditedAt(Configure(0, 0.0), evs, q, ip)
    ensures evs[q].at - evs[p].at >= 54.0
  {
    AuditsAreApart(Configure(0, 0.0), evs, ip, p, q);
    assert RefillTime(Configure(0, 0.0)) == 54.0;
  }

  // ---- A clock that may step back ----

  function Forward(from: real, to: real): real {
    if to > from then to - from else 0.0
  }

  /** The total forward movement of the clock over a run's readings. */
  function ForwardMovement(evs: seq<Event>): real
    decreases |evs|
  {
    if |evs| <= 1 then 0.0
    else
      var n := |evs| - 1;
      ForwardMovement(evs[..n]) + Forward(evs[n - 1].at, evs[n].at)
  }

  /** What the clock's forward movement from one reading to another pays for. */
  function Credit(cfg: Config, from: real, to: real): real {
    Forward(from, to) * cfg.refill
  }

  lemma CreditCovers(cfg: Config, a: real, b: real, c: real)
    requires Usable(cfg)
    ensures 0.0 <= Credit(cfg, a, c) <= Credit(cfg, a, b) + Credit(cfg, b, c)
    ensures Gain(cfg, a, c) <= Credit(cfg, a, c)
    ensures Credit(cfg, c, c) == 0.0
  {
    var d := Forward(a, b) + Forward(b, c) - Forward(a, c);
    assert d >= 0.0 && d * cfg.refill >= 0.0;
    var e := Forward(a, c) - (c - a);
    assert e >= 0.0 && e * cfg.refill >= 0.0;
  }

  /** Tokens left, tokens spent and tokens still to accrue stay within what has been paid for. */
  ghost predicate Paid(cfg: Config, m: Buckets, ip: string, spent: nat, paid: real, now: real) {
    if ip in m
    then && 0.0 <= m[ip].tokens <= cfg.capacity
         && spent as real + m[ip].tokens + Credit(cfg, m[ip].lastUpdate, now) <= cfg.capacity + paid
    else spent as real <= paid
  }

  lemma ClockPays(cfg: Config, m: Buckets, ip: string, spent: nat, paid: real, now: real, at: real)
    requires Usable(cfg) && Paid(cfg, m, ip, spent, paid, now)
    ensures Paid(cfg, m, ip, spent, paid + Credit(cfg, now, at), at)
  {
    CreditCovers(cfg, if ip in m then m[ip].lastUpdate else now, now, at);
    CreditCovers(cfg, now, at, at);
  }

  lemma CheckPays(cfg: Config, m: Buckets, ip: string, spent: nat, paid: real, at: real)
    requires Usable(cfg) && Paid(cfg, m, ip, spent, paid, at)
    ensures var (m', v) := Checked(cfg, m, ip, at);
            Paid(cfg, m', ip, if v.Allowed? then spent + 1 else spent, paid, at)
  {
    CreditCovers(cfg, if ip in m then m[ip].lastUpdate else at, at, at);
    CreditCovers(cfg, at, at, at);
  }

  lemma ReapPays(cfg: Config, m: Buckets, ip: string, spent: nat, paid: real, at: real)
    requires Usable(cfg) && Paid(cfg, m, ip, spent, paid, at)
    ensures Paid(cfg, Reaped(cfg, m, at), ip, spent, paid, at)
  {
    CreditCovers(cfg, if ip in m then m[ip].lastUpdate else at, at, at);
  }

  lemma StepPays(cfg: Config, before: seq<Event>, e: Event, ip: string, paid: real)
    requires Usable(cfg) && Paid(cfg, Run(cfg, before), ip, |AllowedTimes(cfg, before, ip)|, paid, e.at)
    ensures Paid(cfg, Run(cfg, before + [e]), ip, |AllowedTimes(cfg, before + [e], ip)|, paid, e.at)
  {
    RunGrows(cfg, before, e, ip);
    var m, spent := Run(cfg, before), |AllowedTimes(cfg, before, ip)|;
    if e.Reap? {
      ReapPays(cfg, m, ip, spent, paid, e.at);
    } else if e.ip == ip {
      CheckPays(cfg, m, ip, spent, paid, e.at);
    }
  }

  /** What all of a run's forward movement pays for. */
  function TotalCredit(cfg: Config, evs: seq<Event>): real
    decreases |evs|
  {
    if |evs| <= 1 then 0.0
    else
      var n := |evs| - 1;
      TotalCredit(cfg, evs[..n]) + Credit(cfg, evs[n - 1].at, evs[n].at)
  }

  lemma Distributes(a: real, b: real, r: real)
    ensures (a + b) * r == a * r + b * r
  {
  }

  lemma {:induction false} TotalCreditIsTheMovements(cfg: Config, evs: seq<Event>)
    ensures TotalCredit(cfg, evs) == ForwardMovement(evs) * cfg.refill
    decreases |evs|
  {
    if |evs| > 1 {
      var n := |evs| - 1;
      TotalCreditIsTheMovements(cfg, evs[..n]);
      Distributes(ForwardMovement(evs[..n]), Forward(evs[n - 1].at, evs[n].at), cfg.refill);
    }
  }

  lemma {:induction false} RunPays(cfg: Config, evs: seq<Event>, ip: string)
    requires Usable(cfg) && evs != []
    ensures Paid(cfg, Run(cfg, evs), ip, |AllowedTimes(cfg, evs, ip)|, TotalCredit(cfg, evs), evs[|evs| - 1].at)
    decreases |evs|
  {
    var n := |evs| - 1;
    var before, e := evs[..n], evs[n];
    assert before + [e] == evs;
    if n > 0 {
      RunPays(cfg, before, ip);
      ClockPays(cfg, Run(cfg, before), ip, |AllowedTimes(cfg, before, ip)|,
                TotalCredit(cfg, before), before[n - 1].at, e.at);
    }
    StepPays(cfg, before, e, ip, TotalCredit(cfg, evs));
  }

  /** On any clock, an IP is allowed at most the capacity plus what refills while the clock moves forward. */
  lemma SpendingIsBounded(cfg: Config, evs: seq<Event>, ip: string)
    requires Usable(cfg)
    ensures |AllowedTimes(cfg, evs, ip)| as real <= cfg.capacity + ForwardMovement(evs) * cfg.refill
    ensures ip in Run(cfg, evs) ==> 0.0 <= Run(cfg, evs)[ip].tokens <= cfg.capacity
  {
    TotalCreditIsTheMovements(cfg, evs);
    if evs != [] {
      RunPays(cfg, evs, ip);
      var m := Run(cfg, evs);
      if ip in m {
        CreditCovers(cfg, m[ip].lastUpdate, evs[|evs| - 1].at, evs[|evs| - 1].at);
      }
    }
  }

  lemma OneTokenAccrues(cfg: Config, since: real, at: real)
    requires Usable(cfg) && at - since >= 1.0 / cfg.refill
    ensures Gain(cfg, since, at) >= 1.0
  {
    var spare := (at - since) - 1.0 / cfg.refill;
    assert spare * cfg.refill >= 0.0;
    assert (1.0 / cfg.refill) * cfg.refill == 1.0;
    assert (at - since) * cfg.refill == spare * cfg.refill + (1.0 / cfg.refill) * cfg.refill;
  }

  /** However the clock has stepped, a request one token's refill after the bucket's last update is allowed. */
  lemma NeverBlackholed(cfg: Config, evs: seq<Event>, ip: string, at: real)
    requires Usable(cfg)
    requires ip in Run(cfg, evs) ==> at - Run(cfg, evs)[ip].lastUpdate >= 1.0 / cfg.refill
    ensures VerdictAfter(cfg, evs, ip, at).Allowed?
  {
    SpendingIsBounded(cfg, evs, ip);
    if ip in Run(cfg, evs) {
      OneTokenAccrues(cfg, Run(cfg, evs)[ip].lastUpdate, at);
    }
  }
}
