/**
 What a caller of the cache may be handed. From any moment at which a name has no committed write
 that is still to be evicted, every later answer is a value the table held at or after that moment:
 hits always, shared lookups when they were registered after it.
 */
module CacheFreshness {
  import opened Wrappers
  import opened Components
  import opened CacheModel

  /** What reading the name could have returned at the moments of a run, errors included. */
  ghost function Snapshots(ttl: int, s0: State, acts: seq<Action>, name: string): set<GetResult>
    decreases |acts|
  {
    {Failed, ReadTable(Run(ttl, s0, acts).store, name)} +
    if acts == [] then {} else Snapshots(ttl, s0, acts[..|acts| - 1], name)
  }

  /** A snapshot is an error or the table's value after some prefix of the run, and nothing else. */
  lemma {:induction false} SnapshotsAreTableValues(ttl: int, s0: State, acts: seq<Action>, name: string, r: GetResult)
    ensures r in Snapshots(ttl, s0, acts, name) <==>
            r == Failed || exists k | 0 <= k <= |acts| :: r == ReadTable(Run(ttl, s0, acts[..k]).store, name)
    decreases |acts|
  {
    assert acts[..|acts|] == acts;
    if acts != [] {
      var before := acts[..|acts| - 1];
      SnapshotsAreTableValues(ttl, s0, before, name, r);
      assert forall k | 0 <= k < |acts| :: acts[..k] == before[..k];
    }
  }

  /** The cached entry and the lookups that could still deliver or insert a value lie in `seen`. */
  ghost predicate FreshCache(seen: set<GetResult>, first: nat, s: State, name: string) {
    && (name in s.cache.entries ==> Found(s.cache.entries[name].comp) in seen)
    && (name in s.flights ==> FreshFlight(seen, first, s.flights[name], GenOf(s.cache, name)))
  }

  ghost predicate FreshFlight(seen: set<GetResult>, first: nat, f: Flight, gen: nat) {
    match f.phase
    case HasRead(g, r, _) => f.id >= first || (r.Found? && g == gen) ==> r in seen
    case Settled(r) => f.id >= first ==> r in seen
    case _ => true
  }

  ghost predicate FreshCaller(seen: set<GetResult>, first: nat, c: Caller) {
    match c
    case Looking(_, e) => Found(e.comp) in seen
    case Expired(_, e) => Found(e.comp) in seen
    case Done(_, r, Shared(f)) => f >= first ==> r in seen
    case Done(_, r, _) => r in seen
    case _ => true
  }

  lemma EntryStaysFresh(ttl: int, s: State, a: Action, name: string, seen: set<GetResult>, first: nat)
    requires FreshCache(seen, first, s, name)
    ensures var s' := Step(ttl, s, a);
            name in s'.cache.entries ==> Found(s'.cache.entries[name].comp) in seen
  {
  }

  lemma FlightStaysFresh(ttl: int, s: State, a: Action, name: string, evictions: nat, seen: set<GetResult>, first: nat)
    requires FreshCache(seen, first, s, name) && GenOrdered(s, name, evictions)
            && Counted(a, name, evictions) < GEN_MODULUS
    requires Failed in seen && ReadTable(s.store, name) in seen
    ensures var s' := Step(ttl, s, a);
            name in s'.flights ==> FreshFlight(seen, first, s'.flights[name], GenOf(s'.cache, name))
  {
    StepMovesGen(ttl, s, a, name, evictions);
  }

  lemma CacheStaysFresh(ttl: int, s: State, a: Action, name: string, evictions: nat, seen: set<GetResult>, first: nat)
    requires FreshCache(seen, first, s, name) && GenOrdered(s, name, evictions)
            && Counted(a, name, evictions) < GEN_MODULUS
    requires Failed in seen && ReadTable(s.store, name) in seen
    ensures FreshCache(seen, first, Step(ttl, s, a), name)
  {
    EntryStaysFresh(ttl, s, a, name, seen, first);
    FlightStaysFresh(ttl, s, a, name, evictions, seen, first);
  }

  lemma CallerStaysFresh(ttl: int, s: State, a: Action, id: nat, seen: set<GetResult>, first: nat)
    requires var s' := Step(ttl, s, a); id in s'.callers && FreshCache(seen, first, s, s'.callers[id].name)
    requires id in s.callers ==> FreshCaller(seen, first, s.callers[id])
    requires Failed in seen && ReadTable(s.store, Step(ttl, s, a).callers[id].name) in seen
    ensures FreshCaller(seen, first, Step(ttl, s, a).callers[id])
  {
  }

  lemma MoreIsFresh(seen: set<GetResult>, more: set<GetResult>, first: nat, s: State, name: string, c: Caller)
    requires seen <= more
    ensures FreshCache(seen, first, s, name) ==> FreshCache(more, first, s, name)
    ensures FreshCaller(seen, first, c) ==> FreshCaller(more, first, c)
  {
  }

  /** The picture after any run from the quiet moment s0, for one name and one caller begun since. */
  ghost predicate FreshState(ttl: int, s0: State, acts: seq<Action>, name: string, id: nat) {
    var s := Run(ttl, s0, acts);
    var seen := Snapshots(ttl, s0, acts, name);
    && FreshCache(seen, s0.nextFlight, s, name)
    && (id in s.callers && s.callers[id].name == name ==> FreshCaller(seen, s0.nextFlight, s.callers[id]))
  }

  lemma {:induction false} RunStaysFresh(ttl: int, s0: State, acts: seq<Action>, bound: nat, name: string, id: nat)
    requires Invariant(ttl, s0, bound) && bound + Evictions(acts, name) < GEN_MODULUS
    requires s0.pending[name] == 0 && id !in s0.callers
    ensures GenOrdered(Run(ttl, s0, acts), name, bound + Evictions(acts, name))
    ensures FreshState(ttl, s0, acts, name, id)
    decreases |acts|
  {
    if acts == [] {
      assert NameCoherent(s0, name, bound);
    } else {
      var before, a := acts[..|acts| - 1], acts[|acts| - 1];
      RunStaysFresh(ttl, s0, before, bound, name, id);
      StateStaysFresh(ttl, s0, before, a, bound + Evictions(before, name), name, id);
      assert before + [a] == acts;
    }
  }

  lemma StateStaysFresh(ttl: int, s0: State, before: seq<Action>, a: Action, evictions: nat, name: string, id: nat)
    requires FreshState(ttl, s0, before, name, id) && id !in s0.callers
    requires GenOrdered(Run(ttl, s0, before), name, evictions) && Counted(a, name, evictions) < GEN_MODULUS
    ensures GenOrdered(Run(ttl, s0, before + [a]), name, Counted(a, name, evictions))
    ensures FreshState(ttl, s0, before + [a], name, id)
  {
    var s, acts := Run(ttl, s0, before), before + [a];
    var s' := Step(ttl, s, a);
    assert acts[..|acts| - 1] == before;
    assert Run(ttl, s0, acts) == s';
    var seen, more := Snapshots(ttl, s0, before, name), Snapshots(ttl, s0, acts, name);
    StepKeepsGen(ttl, s, a, name, evictions);
    CacheStaysFresh(ttl, s, a, name, evictions, seen, s0.nextFlight);
    if id in s.callers {
      CallersKeepNames(ttl, s, a, id);
    }
    if id in s'.callers && s'.callers[id].name == name {
      CallerStaysFresh(ttl, s, a, id, seen, s0.nextFlight);
      MoreIsFresh(seen, more, s0.nextFlight, s', name, s'.callers[id]);
    } else {
      MoreIsFresh(seen, more, s0.nextFlight, s', name, Missed(name));
    }
  }

  lemma CallersKeepNames(ttl: int, s: State, a: Action, id: nat)
    requires id in s.callers
    ensures id in Step(ttl, s, a).callers && Step(ttl, s, a).callers[id].name == s.callers[id].name
  {
  }

  /**
   From a moment with no unevicted write of the name, whatever this instance and others do next: a
   call begun later is answered, by a hit or by a shared lookup registered later, with an error or a
   value the table held at or after that moment.
   */
  lemma AnswersAreFresh(ttl: int, s0: State, acts: seq<Action>, bound: nat, id: nat)
    requires Invariant(ttl, s0, bound) && id !in s0.callers
    requires var s := Run(ttl, s0, acts);
             && id in s.callers && s.callers[id].Done?
             && bound + Evictions(acts, s.callers[id].name) < GEN_MODULUS
             && s0.pending[s.callers[id].name] == 0
             && (s.callers[id].source.Shared? ==> s.callers[id].source.flight >= s0.nextFlight)
    ensures var c := Run(ttl, s0, acts).callers[id];
            c.result == Failed ||
            exists k | 0 <= k <= |acts| :: c.result == ReadTable(Run(ttl, s0, acts[..k]).store, c.name)
  {
    var c := Run(ttl, s0, acts).callers[id];
    RunStaysFresh(ttl, s0, acts, bound, c.name, id);
    SnapshotsAreTableValues(ttl, s0, acts, c.name, c.result);
  }

  /** While the name stays non-public, no call begun after the write was evicted is told it is public. */
  lemma RevocationTakesEffect(ttl: int, s0: State, acts: seq<Action>, bound: nat, id: nat)
    requires Invariant(ttl, s0, bound) && id !in s0.callers
    requires var s := Run(ttl, s0, acts);
             && id in s.callers && s.callers[id].Done?
             && bound + Evictions(acts, s.callers[id].name) < GEN_MODULUS
             && s0.pending[s.callers[id].name] == 0
             && (s.callers[id].source.Shared? ==> s.callers[id].source.flight >= s0.nextFlight)
    requires forall k | 0 <= k <= |acts| ::
               var t := Run(ttl, s0, acts[..k]).store;
               var name := Run(ttl, s0, acts).callers[id].name;
               name in t ==> !Public(t[name])
    ensures var r := Run(ttl, s0, acts).callers[id].result;
            r.Found? ==> !Public(r.comp)
  {
    AnswersAreFresh(ttl, s0, acts, bound, id);
  }

  // ---- The limit of the guarantee ----

  /** A first caller's lookup has read the name when a write of it commits and evicts. */
  function Overtaken(name: string, w: Write): seq<Action> {
    [Begin(1, name), Join(1), Capture(name), Read(name, true), Commit(name, w), Evict(name)]
  }

  /** A second caller begins only now, and joins the lookup still in flight. */
  function LateJoin(name: string): seq<Action> {
    [Begin(2, name), Join(2)] + [Insert(name), Finish(name)]
  }

  /** The write has returned; the first caller still waits for its lookup. */
  ghost predicate Quiet(s: State, t: Table, name: string, w: Write)
    requires name in t && Committed(t, name, w).Some?
  {
    && s.store == Committed(t, name, w).value
    && s.cache == Cache(map[], map[name := 1])
    && name in s.flights && s.flights[name].id == 0
    && s.flights[name].phase.HasRead? && s.flights[name].phase.gen == 0
       && s.flights[name].phase.result == Found(t[name])
    && s.callers == map[1 := Waiting(name, 0)]
    && s.pending[name] == 0
  }

  lemma FirstCallerReads(ttl: int, t: Table, name: string, now: int)
    requires ttl > 0 && name in t
    ensures Run(ttl, Start(t, now), [Begin(1, name), Join(1), Capture(name), Read(name, true)]) ==
            WithFlight(t, now, name, HasRead(0, Found(t[name]), now))
  {
    RunOfFour(ttl, Start(t, now), Begin(1, name), Join(1), Capture(name), Read(name, true));
    FirstCallerJoins(ttl, t, name, now);
    JoinedReads(ttl, t, name, now);
  }

  function WithFlight(t: Table, now: int, name: string, p: Phase): State {
    Start(t, now).(flights := map[name := Flight(0, p)], nextFlight := 1, callers := map[1 := Waiting(name, 0)])
  }

  lemma FirstCallerJoins(ttl: int, t: Table, name: string, now: int)
    requires ttl > 0
    ensures Step(ttl, Step(ttl, Start(t, now), Begin(1, name)), Join(1)) == WithFlight(t, now, name, Registered)
  {
    var begun := Start(t, now).(callers := map[1 := Missed(name)]);
    assert Step(ttl, Start(t, now), Begin(1, name)) == begun;
    assert Step(ttl, begun, Join(1)).callers == map[1 := Waiting(name, 0)];
  }

  lemma JoinedReads(ttl: int, t: Table, name: string, now: int)
    requires name in t
    ensures Step(ttl, Step(ttl, WithFlight(t, now, name, Registered), Capture(name)), Read(name, true)) ==
            WithFlight(t, now, name, HasRead(0, Found(t[name]), now))
  {
    var captured := WithFlight(t, now, name, Captured(0));
    assert Step(ttl, WithFlight(t, now, name, Registered), Capture(name)) == captured;
    assert Step(ttl, captured, Read(name, true)).flights == map[name := Flight(0, HasRead(0, Found(t[name]), now))];
  }

  lemma OvertakenLeadsToQuiet(ttl: int, t: Table, name: string, w: Write, now: int)
    requires ttl > 0 && name in t && Committed(t, name, w).Some?
    ensures Quiet(Run(ttl, Start(t, now), Overtaken(name, w)), t, name, w)
  {
    var first := [Begin(1, name), Join(1), Capture(name), Read(name, true)];
    FirstCallerReads(ttl, t, name, now);
    RunGrows(ttl, Start(t, now), first, Commit(name, w));
    RunGrows(ttl, Start(t, now), first + [Commit(name, w)], Evict(name));
    assert Overtaken(name, w) == first + [Commit(name, w)] + [Evict(name)];
    WriteOvertakes(ttl, t, name, w, now);
  }

  lemma WriteOvertakes(ttl: int, t: Table, name: string, w: Write, now: int)
    requires ttl > 0 && name in t && Committed(t, name, w).Some?
    ensures var s4 := WithFlight(t, now, name, HasRead(0, Found(t[name]), now));
            Quiet(Step(ttl, Step(ttl, s4, Commit(name, w)), Evict(name)), t, name, w)
  {
    assert Evicted(Cache(map[], map[]), name) == Cache(map[], map[name := 1]);
  }

  lemma LateJoins(ttl: int, s: State, t: Table, name: string, w: Write)
    requires ttl > 0 && name in t && Committed(t, name, w).Some? && Quiet(s, t, name, w)
    ensures Run(ttl, s, [Begin(2, name), Join(2)]) == s.(callers := s.callers[2 := Waiting(name, 0)])
  {
    RunOfTwo(ttl, s, Begin(2, name), Join(2));
    assert s.callers[2 := Missed(name)][2 := Waiting(name, 0)] == s.callers[2 := Waiting(name, 0)];
  }

  lemma OldLookupDelivers(ttl: int, s: State, name: string, overtaken: GetResult)
    requires name in s.flights && s.flights[name].id == 0 && GenOf(s.cache, name) == 1 && s.cache.entries == map[]
    requires s.flights[name].phase.HasRead? && s.flights[name].phase.gen == 0
    requires s.flights[name].phase.result == overtaken
    requires 2 in s.callers && s.callers[2] == Waiting(name, 0)
    ensures var end := Run(ttl, s, [Insert(name), Finish(name)]);
            && 2 in end.callers && end.callers[2] == Done(name, overtaken, Shared(0))
            && end.cache.entries == map[]
  {
    RunOfTwo(ttl, s, Insert(name), Finish(name));
  }

  lemma LateJoinDelivers(ttl: int, s: State, t: Table, name: string, w: Write)
    requires ttl > 0 && name in t && Committed(t, name, w).Some? && Quiet(s, t, name, w)
    ensures var end := Run(ttl, s, LateJoin(name));
            && 2 in end.callers && end.callers[2] == Done(name, Found(t[name]), Shared(0))
            && end.cache.entries == map[]
  {
    LateJoins(ttl, s, t, name, w);
    OldLookupDelivers(ttl, s.(callers := s.callers[2 := Waiting(name, 0)]), name, Found(t[name]));
    RunsConcatenate(ttl, s, [Begin(2, name), Join(2)], [Insert(name), Finish(name)]);
  }

  /**
   evict does not forget a running lookup, so the condition on shared lookups is needed: whatever the
   component and the write, a call begun after the write has returned to its caller can be handed the
   value from before it. The generation still keeps that value out of the cache.
   */
  lemma LateJoinerSeesOldValue(ttl: int, t: Table, name: string, w: Write, now: int)
    requires ttl > 0 && name in t && Committed(t, name, w).Some?
    ensures var quiet := Run(ttl, Start(t, now), Overtaken(name, w));
            var end := Run(ttl, quiet, LateJoin(name));
            && quiet.pending[name] == 0 && 2 !in quiet.callers
            && quiet.store == Committed(t, name, w).value
            && 2 in end.callers && end.callers[2] == Done(name, Found(t[name]), Shared(0))
            && end.cache.entries == map[]
  {
    OvertakenLeadsToQuiet(ttl, t, name, w, now);
    LateJoinDelivers(ttl, Run(ttl, Start(t, now), Overtaken(name, w)), t, name, w);
  }

  lemma RunOfFour(ttl: int, s: State, a: Action, b: Action, c: Action, d: Action)
    ensures Run(ttl, s, [a, b, c, d]) == Step(ttl, Step(ttl, Step(ttl, Step(ttl, s, a), b), c), d)
  {
    RunOfThree(ttl, s, a, b, c);
    RunGrows(ttl, s, [a, b, c], d);
    assert [a, b, c] + [d] == [a, b, c, d];
  }
}
