/**
 Time and the cache: what still holds when other instances write the table behind this one's back.
 The clock never runs backwards here; times and durations are nanoseconds.
 */
module CacheStaleness {
  import opened Wrappers
  import opened Components
  import opened CacheModel

  const LOOKUP_TIMEOUT := 5_000_000_000

  predicate ClockForward(acts: seq<Action>) {
    forall k | 0 <= k < |acts| :: acts[k].Tick? ==> acts[k].delta >= 0
  }

  // ---- What every reachable state knows about its clock readings ----

  ghost predicate NameTimed(ttl: int, s: State, name: string) {
    && (name in s.cache.entries ==> s.cache.entries[name].expiresAt <= s.now + ttl)
    && (name in s.flights && s.flights[name].phase.HasRead? ==> s.flights[name].phase.readAt <= s.now)
  }

  ghost predicate CallerTimed(ttl: int, s: State, id: nat) {
    id in s.callers ==>
      match s.callers[id]
      case Looking(_, e) => e.expiresAt <= s.now + ttl
      case Expired(_, e) => e.expiresAt <= s.now
      case Done(_, _, Hit(at)) => ttl > 0 && at <= s.now
      case _ => true
  }

  lemma StepKeepsNameTimed(ttl: int, s: State, a: Action, name: string)
    requires NameTimed(ttl, s, name) && (a.Tick? ==> a.delta >= 0)
    ensures NameTimed(ttl, Step(ttl, s, a), name)
  {
  }

  lemma StepKeepsCallerTimed(ttl: int, s: State, a: Action, id: nat)
    requires CallerTimed(ttl, s, id) && (forall name :: NameTimed(ttl, s, name)) && (a.Tick? ==> a.delta >= 0)
    requires DisabledIsEmpty(ttl, s)
    ensures CallerTimed(ttl, Step(ttl, s, a), id)
  {
    if a.Begin? {
      assert NameTimed(ttl, s, a.name);
    }
  }

  ghost predicate Timed(ttl: int, s: State) {
    && DisabledIsEmpty(ttl, s)
    && (forall name :: NameTimed(ttl, s, name))
    && (forall id: nat :: CallerTimed(ttl, s, id))
  }

  lemma {:induction false} ReachableIsTimed(ttl: int, t: Table, now: int, acts: seq<Action>)
    requires ClockForward(acts)
    ensures Timed(ttl, Run(ttl, Start(t, now), acts))
    decreases |acts|
  {
    if acts != [] {
      var before, a := acts[..|acts| - 1], acts[|acts| - 1];
      ReachableIsTimed(ttl, t, now, before);
      StepKeepsTimed(ttl, Run(ttl, Start(t, now), before), a);
    }
  }

  lemma StepKeepsTimed(ttl: int, s: State, a: Action)
    requires Timed(ttl, s) && (a.Tick? ==> a.delta >= 0)
    ensures Timed(ttl, Step(ttl, s, a))
  {
    StepKeepsDisabled(ttl, s, a);
    forall name { StepKeepsNameTimed(ttl, s, a, name); }
    forall id: nat { StepKeepsCallerTimed(ttl, s, a, id); }
  }

  /**
   Lazy expiry removes expired entries only: between finding an entry expired and taking the write
   lock any number of fresher inserts may land, and none that is still valid is ever thrown away.
   */
  lemma LazyExpiryIsSafe(ttl: int, t: Table, now: int, acts: seq<Action>, id: nat, name: string)
    requires ClockForward(acts)
    ensures var s := Run(ttl, Start(t, now), acts);
            var s' := Step(ttl, s, DropExpired(id));
            name in s.cache.entries && s.now < s.cache.entries[name].expiresAt ==>
              name in s'.cache.entries && s'.cache.entries[name] == s.cache.entries[name]
  {
    ReachableIsTimed(ttl, t, now, acts);
    assert CallerTimed(ttl, Run(ttl, Start(t, now), acts), id);
  }

  // ---- Bounded staleness ----

  ghost predicate PublicNow(s: State, name: string) {
    name in s.store && Public(s.store[name])
  }

  /** The name is not public at any moment of the run from s. */
  ghost predicate StaysHidden(ttl: int, s: State, acts: seq<Action>, name: string) {
    forall k | 0 <= k <= |acts| :: !PublicNow(Run(ttl, s, acts[..k]), name)
  }

  /** No shared lookup of the name takes longer than lookupTimeout from its read to its insert. */
  ghost predicate PromptInserts(ttl: int, s: State, acts: seq<Action>, name: string) {
    forall k | 0 <= k < |acts| && acts[k] == Insert(name) ::
      var u := Run(ttl, s, acts[..k]);
      name in u.flights && u.flights[name].phase.HasRead? ==> u.now - u.flights[name].phase.readAt <= LOOKUP_TIMEOUT
  }

  /** Nothing public read after `hidden`, and nothing cached past `limit`. */
  ghost predicate Bounded(s: State, name: string, hidden: int, limit: int) {
    && (name in s.cache.entries ==> s.cache.entries[name].expiresAt <= limit)
    && (name in s.flights && s.flights[name].phase.HasRead? ==>
          var p := s.flights[name].phase;
          p.result.Found? && Public(p.result.comp) ==> p.readAt <= hidden)
  }

  ghost predicate CallerBounded(s: State, id: nat, name: string, limit: int) {
    id in s.callers && s.callers[id].name == name ==>
      match s.callers[id]
      case Looking(_, e) => e.expiresAt <= limit
      case Done(_, _, Hit(at)) => at < limit
      case _ => true
  }

  lemma StepKeepsBounded(ttl: int, s: State, a: Action, name: string, hidden: int)
    requires Bounded(s, name, hidden, hidden + ttl + LOOKUP_TIMEOUT) && !PublicNow(s, name)
    requires a == Insert(name) && name in s.flights && s.flights[name].phase.HasRead? ==>
               s.now - s.flights[name].phase.readAt <= LOOKUP_TIMEOUT
    ensures Bounded(Step(ttl, s, a), name, hidden, hidden + ttl + LOOKUP_TIMEOUT)
  {
  }

  lemma StepKeepsCallerBounded(ttl: int, s: State, a: Action, id: nat, name: string, hidden: int, limit: int)
    requires Bounded(s, name, hidden, limit) && CallerBounded(s, id, name, limit)
    ensures CallerBounded(Step(ttl, s, a), id, name, limit)
  {
  }

  lemma PrefixHides(ttl: int, s: State, acts: seq<Action>, name: string)
    requires acts != [] && StaysHidden(ttl, s, acts, name) && PromptInserts(ttl, s, acts, name)
    ensures var before := acts[..|acts| - 1];
            && StaysHidden(ttl, s, before, name) && PromptInserts(ttl, s, before, name)
            && !PublicNow(Run(ttl, s, before), name)
  {
    var before := acts[..|acts| - 1];
    forall k | 0 <= k <= |before| ensures !PublicNow(Run(ttl, s, before[..k]), name) {
      assert before[..k] == acts[..k];
    }
    forall k | 0 <= k < |before| && before[k] == Insert(name)
      ensures var u := Run(ttl, s, before[..k]);
              name in u.flights && u.flights[name].phase.HasRead? ==>
                u.now - u.flights[name].phase.readAt <= LOOKUP_TIMEOUT
    {
      assert before[..k] == acts[..k] && acts[k] == Insert(name);
    }
  }

  lemma {:induction false} RunKeepsBounded(ttl: int, s: State, acts: seq<Action>, id: nat, name: string)
    requires Timed(ttl, s)
    requires StaysHidden(ttl, s, acts, name) && PromptInserts(ttl, s, acts, name)
    ensures var limit := s.now + ttl + LOOKUP_TIMEOUT;
            var u := Run(ttl, s, acts);
            Bounded(u, name, s.now, limit) && CallerBounded(u, id, name, limit)
    decreases |acts|
  {
    if acts == [] {
      assert NameTimed(ttl, s, name) && CallerTimed(ttl, s, id);
    } else {
      var n := |acts| - 1;
      var before := acts[..n];
      PrefixHides(ttl, s, acts, name);
      RunKeepsBounded(ttl, s, before, id, name);
      var u := Run(ttl, s, before);
      StepKeepsBounded(ttl, u, acts[n], name, s.now);
      StepKeepsCallerBounded(ttl, u, acts[n], id, name, s.now, s.now + ttl + LOOKUP_TIMEOUT);
    }
  }

  /**
   However the name stopped being public by time w, on this instance or behind its back: while it stays
   so, no call is served it from the cache at w + ttl + lookupTimeout or later.
   */
  lemma StalenessIsBounded(ttl: int, t: Table, now: int, past: seq<Action>, acts: seq<Action>, id: nat, name: string)
    requires ClockForward(past)
    requires var s := Run(ttl, Start(t, now), past);
             StaysHidden(ttl, s, acts, name) && PromptInserts(ttl, s, acts, name)
    ensures var s := Run(ttl, Start(t, now), past);
            var u := Run(ttl, s, acts);
            id in u.callers && u.callers[id].name == name && u.callers[id].Done? && u.callers[id].source.Hit? ==>
              u.callers[id].source.at < s.now + ttl + LOOKUP_TIMEOUT
  {
    ReachableIsTimed(ttl, t, now, past);
    RunKeepsBounded(ttl, Run(ttl, Start(t, now), past), acts, id, name);
  }
}
