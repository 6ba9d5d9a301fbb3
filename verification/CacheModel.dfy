/**
 The public-component cache (auth/internal/store/cached_components.go) as a state machine over
 its atomic steps. Every critical section of `mu`, every singleflight bookkeeping step, every read
 or commit of the component table and every clock change is one action, so a sequence of actions is
 one interleaving of any number of concurrent callers. An action that cannot happen changes nothing.
 */
module CacheModel {
  import opened Wrappers
  import opened Components

  // ---- The cache proper: the two maps under `mu` ----

  /** Generations are uint64 and wrap. */
  const GEN_MODULUS: nat := 0x1_0000_0000_0000_0000

  datatype Entry = Entry(comp: Component, expiresAt: int)

  datatype Cache = Cache(entries: map<string, Entry>, gen: map<string, nat>)

  function GenOf(c: Cache, name: string): nat {
    if name in c.gen then c.gen[name] else 0
  }

  /** lookup's second critical section: remove the name only while it still carries the expiry seen. */
  function Dropped(c: Cache, name: string, seen: Entry): Cache {
    if name in c.entries && c.entries[name].expiresAt == seen.expiresAt
    then c.(entries := c.entries - {name})
    else c
  }

  function Inserted(c: Cache, name: string, comp: Component, gen: nat, expiresAt: int): Cache {
    if GenOf(c, name) != gen then c
    else c.(entries := c.entries[name := Entry(comp, expiresAt)])
  }

  function Evicted(c: Cache, name: string): Cache {
    Cache(c.entries - {name}, c.gen[name := (GenOf(c, name) + 1) % GEN_MODULUS])
  }

  // ---- Concurrent callers and shared lookups ----

  /** The function singleflight runs once per name: registered, generation captured, read, done. */
  datatype Phase =
    | Registered
    | Captured(gen: nat)
    | HasRead(gen: nat, result: GetResult, readAt: int)
    | Settled(result: GetResult)

  datatype Flight = Flight(id: nat, phase: Phase)

  /** Where a finished call got its answer from. */
  datatype Source = Hit(at: int) | Shared(flight: nat) | Direct

  datatype Caller =
    | Looking(name: string, seen: Entry)      // found an entry, has not compared the clock yet
    | Expired(name: string, seen: Entry)      // found it expired, has not taken the write lock yet
    | Missed(name: string)                    // about to call singleflight
    | Waiting(name: string, flight: nat)      // leader or joiner of a shared lookup
    | Bypassing(name: string)                 // cache disabled
    | Done(name: string, result: GetResult, source: Source)

  datatype State = State(
    store: Table,
    cache: Cache,
    flights: map<string, Flight>,
    nextFlight: nat,
    callers: map<nat, Caller>,
    pending: multiset<string>,                // committed writes whose evict has not run yet
    now: int)

  datatype Action =
    | Begin(id: nat, name: string)
    | CheckTime(id: nat)
    | DropExpired(id: nat)
    | Join(id: nat)
    | ReadDirect(id: nat, ok: bool)
    | Capture(name: string)
    | Read(name: string, ok: bool)
    | Insert(name: string)
    | Finish(name: string)
    | Commit(name: string, write: Write)
    | Evict(name: string)
    | Create(comp: Component)
    | Outside(name: string, value: Option<Component>)  // a writer that bypasses this instance
    | Tick(delta: int)

  function Begun(ttl: int, s: State, id: nat, name: string): State {
    if id in s.callers then s
    else if ttl <= 0 then s.(callers := s.callers[id := Bypassing(name)])
    else if name in s.cache.entries then s.(callers := s.callers[id := Looking(name, s.cache.entries[name])])
    else s.(callers := s.callers[id := Missed(name)])
  }

  function TimeChecked(s: State, id: nat): State {
    if id !in s.callers || !s.callers[id].Looking? then s
    else
      var Looking(name, e) := s.callers[id];
      if s.now < e.expiresAt
      then s.(callers := s.callers[id := Done(name, Found(e.comp), Hit(s.now))])
      else s.(callers := s.callers[id := Expired(name, e)])
  }

  function ExpiredDropped(s: State, id: nat): State {
    if id !in s.callers || !s.callers[id].Expired? then s
    else
      var Expired(name, e) := s.callers[id];
      s.(cache := Dropped(s.cache, name, e), callers := s.callers[id := Missed(name)])
  }

  function Joined(s: State, id: nat): State {
    if id !in s.callers || !s.callers[id].Missed? then s
    else
      var name := s.callers[id].name;
      if name in s.flights
      then s.(callers := s.callers[id := Waiting(name, s.flights[name].id)])
      else s.(flights := s.flights[name := Flight(s.nextFlight, Registered)],
              nextFlight := s.nextFlight + 1,
              callers := s.callers[id := Waiting(name, s.nextFlight)])
  }

  function DirectlyRead(s: State, id: nat, ok: bool): State {
    if id !in s.callers || !s.callers[id].Bypassing? then s
    else
      var name := s.callers[id].name;
      s.(callers := s.callers[id := Done(name, ReadTable(s.store, name, ok), Direct)])
  }

  function GenCaptured(s: State, name: string): State {
    if name !in s.flights || !s.flights[name].phase.Registered? then s
    else s.(flights := s.flights[name := s.flights[name].(phase := Captured(GenOf(s.cache, name)))])
  }

  function FlightRead(s: State, name: string, ok: bool): State {
    if name !in s.flights || !s.flights[name].phase.Captured? then s
    else
      var f := s.flights[name];
      s.(flights := s.flights[name := f.(phase := HasRead(f.phase.gen, ReadTable(s.store, name, ok), s.now))])
  }

  function FlightInserted(ttl: int, s: State, name: string): State {
    if name !in s.flights || !s.flights[name].phase.HasRead? then s
    else
      var f := s.flights[name];
      var r := f.phase.result;
      var c := if r.Found? && Public(r.comp)
               then Inserted(s.cache, name, r.comp, f.phase.gen, s.now + ttl)
               else s.cache;
      s.(cache := c, flights := s.flights[name := f.(phase := Settled(r))])
  }

  /** singleflight forgets the call and hands the one result to its leader and every joiner. */
  function FlightFinished(s: State, name: string): State {
    if name !in s.flights || !s.flights[name].phase.Settled? then s
    else
      var f := s.flights[name];
      s.(flights := s.flights - {name},
         callers := map id | id in s.callers ::
           if s.callers[id] == Waiting(name, f.id) then Done(name, f.phase.result, Shared(f.id))
           else s.callers[id])
  }

  function WriteCommitted(ttl: int, s: State, name: string, w: Write): State {
    match Committed(s.store, name, w)
    case None => s
    case Some(t) => s.(store := t, pending := if ttl > 0 then s.pending + multiset{name} else s.pending)
  }

  function WriteEvicted(s: State, name: string): State {
    if name !in s.pending then s
    else s.(cache := Evicted(s.cache, name), pending := s.pending - multiset{name})
  }

  function ComponentCreated(s: State, c: Component): State {
    match Created(s.store, c)
    case None => s
    case Some(t) => s.(store := t)
  }

  function WrittenOutside(s: State, name: string, c: Option<Component>): State {
    s.(store := if c.Some? then s.store[name := c.value] else s.store - {name})
  }

  function Step(ttl: int, s: State, a: Action): State {
    match a
    case Begin(id, name) => Begun(ttl, s, id, name)
    case CheckTime(id) => TimeChecked(s, id)
    case DropExpired(id) => ExpiredDropped(s, id)
    case Join(id) => Joined(s, id)
    case ReadDirect(id, ok) => DirectlyRead(s, id, ok)
    case Capture(name) => GenCaptured(s, name)
    case Read(name, ok) => FlightRead(s, name, ok)
    case Insert(name) => FlightInserted(ttl, s, name)
    case Finish(name) => FlightFinished(s, name)
    case Commit(name, w) => WriteCommitted(ttl, s, name, w)
    case Evict(name) => WriteEvicted(s, name)
    case Create(c) => ComponentCreated(s, c)
    case Outside(name, c) => WrittenOutside(s, name, c)
    case Tick(d) => s.(now := s.now + d)
  }

  function Run(ttl: int, s: State, acts: seq<Action>): State
    decreases |acts|
  {
    if acts == [] then s
    else Step(ttl, Run(ttl, s, acts[..|acts| - 1]), acts[|acts| - 1])
  }

  /** A service that has just started over an existing table. */
  function Start(t: Table, now: int): State {
    State(t, Cache(map[], map[]), map[], 0, map[], multiset{}, now)
  }

  predicate Decorated(acts: seq<Action>) {
    forall k | 0 <= k < |acts| :: !acts[k].Outside?
  }

  // ---- A call with nothing running beside it ----

  /** The cache one GetComponent call leaves and its answer. */
  function Alone(ttl: int, c: Cache, t: Table, name: string, ok: bool, now: int): (Cache, GetResult) {
    if ttl <= 0 then (c, ReadTable(t, name, ok))
    else if name in c.entries && now < c.entries[name].expiresAt then (c, Found(c.entries[name].comp))
    else
      var missed := if name in c.entries then Dropped(c, name, c.entries[name]) else c;
      var r := ReadTable(t, name, ok);
      if r.Found? && Public(r.comp) then (Inserted(missed, name, r.comp, GenOf(missed, name), now + ttl), r)
      else (missed, r)
  }

  /** All the steps a call can take, in three parts; those its path does not take change nothing. */
  function LookupSteps(id: nat, name: string): seq<Action> {
    [Begin(id, name), CheckTime(id), DropExpired(id)]
  }

  function OpeningSteps(id: nat, name: string, ok: bool): seq<Action> {
    [ReadDirect(id, ok), Join(id), Capture(name)]
  }

  function FetchSteps(name: string, ok: bool): seq<Action> {
    [Read(name, ok), Insert(name), Finish(name)]
  }

  function AloneSteps(id: nat, name: string, ok: bool): seq<Action> {
    LookupSteps(id, name) + OpeningSteps(id, name, ok) + FetchSteps(name, ok)
  }

  lemma {:induction false} RunsConcatenate(ttl: int, s: State, first: seq<Action>, rest: seq<Action>)
    ensures Run(ttl, s, first + rest) == Run(ttl, Run(ttl, s, first), rest)
    decreases |rest|
  {
    if rest == [] {
      assert first + rest == first;
    } else {
      var n := |rest| - 1;
      RunsConcatenate(ttl, s, first, rest[..n]);
      assert (first + rest)[..|first + rest| - 1] == first + rest[..n];
    }
  }

  lemma RunGrows(ttl: int, s: State, acts: seq<Action>, a: Action)
    ensures Run(ttl, s, acts + [a]) == Step(ttl, Run(ttl, s, acts), a)
  {
    assert (acts + [a])[..|acts + [a]| - 1] == acts;
  }

  lemma RunOfTwo(ttl: int, s: State, a: Action, b: Action)
    ensures Run(ttl, s, [a, b]) == Step(ttl, Step(ttl, s, a), b)
  {
    RunGrows(ttl, s, [], a);
    RunGrows(ttl, s, [a], b);
    assert [] + [a] == [a] && [a] + [b] == [a, b];
  }

  lemma RunOfThree(ttl: int, s: State, a: Action, b: Action, c: Action)
    ensures Run(ttl, s, [a, b, c]) == Step(ttl, Step(ttl, Step(ttl, s, a), b), c)
  {
    RunOfTwo(ttl, s, a, b);
    RunGrows(ttl, s, [a, b], c);
    assert [a, b] + [c] == [a, b, c];
  }

  lemma LookupAlone(ttl: int, s: State, id: nat, name: string)
    requires id !in s.callers
    ensures var hit := ttl > 0 && name in s.cache.entries && s.now < s.cache.entries[name].expiresAt;
            var c := if ttl > 0 && name in s.cache.entries && !hit then Dropped(s.cache, name, s.cache.entries[name])
                else s.cache;
            var after := if ttl <= 0 then Bypassing(name)
                         else if hit then Done(name, Found(s.cache.entries[name].comp), Hit(s.now))
                         else Missed(name);
            Run(ttl, s, LookupSteps(id, name)) == s.(cache := c, callers := s.callers[id := after])
  {
    RunOfThree(ttl, s, Begin(id, name), CheckTime(id), DropExpired(id));
  }

  lemma OpeningAlone(ttl: int, s: State, id: nat, name: string, ok: bool)
    requires id in s.callers && s.callers[id].name == name && name !in s.flights
    requires s.callers[id].Bypassing? || s.callers[id].Missed? || s.callers[id].Done?
    ensures var after := if s.callers[id].Bypassing? then Done(name, ReadTable(s.store, name, ok), Direct)
                         else if s.callers[id].Missed? then Waiting(name, s.nextFlight) else s.callers[id];
            var joined := s.(callers := s.callers[id := after]);
            Run(ttl, s, OpeningSteps(id, name, ok)) ==
            if s.callers[id].Missed?
            then joined.(flights := s.flights[name := Flight(s.nextFlight, Captured(GenOf(s.cache, name)))],
                nextFlight := s.nextFlight + 1)
            else joined
  {
    RunOfThree(ttl, s, ReadDirect(id, ok), Join(id), Capture(name));
    assert s.callers[id].Missed? || s == s.(callers := s.callers[id := s.callers[id]]);
  }

  lemma FetchAlone(ttl: int, s: State, id: nat, name: string, ok: bool)
    requires name in s.flights && s.flights[name].phase == Captured(GenOf(s.cache, name))
    requires id in s.callers && s.callers[id] == Waiting(name, s.flights[name].id)
    ensures var end := Run(ttl, s, FetchSteps(name, ok));
            var r := ReadTable(s.store, name, ok);
            && id in end.callers && end.callers[id] == Done(name, r, Shared(s.flights[name].id))
            && end.cache == (if r.Found? && Public(r.comp)
                             then Inserted(s.cache, name, r.comp, GenOf(s.cache, name), s.now + ttl) else s.cache)
            && end.store == s.store && end.flights == s.flights - {name} && end.pending == s.pending
  {
    RunOfThree(ttl, s, Read(name, ok), Insert(name), Finish(name));
    var f, r := s.flights[name], ReadTable(s.store, name, ok);
    var fetched := s.(flights := s.flights[name := f.(phase := HasRead(f.phase.gen, r, s.now))]);
    assert Step(ttl, s, Read(name, ok)) == fetched;
    var inserted := Step(ttl, fetched, Insert(name));
    assert inserted.flights == s.flights[name := f.(phase := Settled(r))] && inserted.callers == s.callers;
  }

  lemma FetchOfNothing(ttl: int, s: State, name: string, ok: bool)
    requires name !in s.flights
    ensures Run(ttl, s, FetchSteps(name, ok)) == s
  {
    RunOfThree(ttl, s, Read(name, ok), Insert(name), Finish(name));
  }

  lemma AloneInParts(ttl: int, s: State, id: nat, name: string, ok: bool)
    ensures Run(ttl, s, AloneSteps(id, name, ok)) ==
            Run(ttl, Run(ttl, Run(ttl, s, LookupSteps(id, name)), OpeningSteps(id, name, ok)), FetchSteps(name, ok))
  {
    RunsConcatenate(ttl, s, LookupSteps(id, name), OpeningSteps(id, name, ok));
    RunsConcatenate(ttl, s, LookupSteps(id, name) + OpeningSteps(id, name, ok), FetchSteps(name, ok));
  }

  /** The one-call summary is what the interleaved machine computes when only that call runs. */
  lemma AloneIsTheInterleaving(ttl: int, s: State, id: nat, name: string, ok: bool)
    requires id !in s.callers && name !in s.flights
    ensures var end := Run(ttl, s, AloneSteps(id, name, ok));
            var (c, r) := Alone(ttl, s.cache, s.store, name, ok, s.now);
            && id in end.callers && end.callers[id].Done? && end.callers[id].name == name
            && end.callers[id].result == r && end.cache == c
            && end.store == s.store && end.flights == s.flights && end.pending == s.pending
  {
    AloneInParts(ttl, s, id, name, ok);
    LookupAlone(ttl, s, id, name);
    RestAlone(ttl, s, Run(ttl, s, LookupSteps(id, name)), id, name, ok);
  }

  lemma RestAlone(ttl: int, s: State, looked: State, id: nat, name: string, ok: bool)
    requires name !in s.flights && id in looked.callers && looked.callers[id].name == name
    requires looked == s.(cache := looked.cache, callers := looked.callers)
    requires looked.callers[id].Bypassing? || looked.callers[id].Missed? || looked.callers[id].Done?
    ensures var end := Run(ttl, Run(ttl, looked, OpeningSteps(id, name, ok)), FetchSteps(name, ok));
            var c := looked.callers[id];
            var r := if c.Done? then c.result else ReadTable(s.store, name, ok);
            && id in end.callers && end.callers[id].Done? && end.callers[id].name == name && end.callers[id].result == r
            && end.cache == (if c.Missed? && r.Found? && Public(r.comp)
                             then Inserted(looked.cache, name, r.comp, GenOf(looked.cache, name), s.now + ttl)
                                 else looked.cache)
            && end.store == s.store && end.flights == s.flights && end.pending == s.pending
  {
    OpeningAlone(ttl, looked, id, name, ok);
    var joined := Run(ttl, looked, OpeningSteps(id, name, ok));
    if looked.callers[id].Missed? {
      FetchAlone(ttl, joined, id, name, ok);
      assert joined.flights - {name} == s.flights;
    } else {
      FetchOfNothing(ttl, joined, name, ok);
    }
  }

  // ---- Coherence ----

  /** A cache entry of a name with no unevicted write is the stored, public component. */
  ghost predicate EntryCoherent(s: State, name: string) {
    name in s.cache.entries && s.pending[name] == 0 ==>
      && Public(s.cache.entries[name].comp)
      && ReadTable(s.store, name) == Found(s.cache.entries[name].comp)
  }

  /** So is a record that a shared lookup has read under a generation that is still current. */
  ghost predicate ReadCoherent(s: State, name: string) {
    name in s.flights && s.pending[name] == 0 ==>
      var p := s.flights[name].phase;
      p.HasRead? && p.gen == GenOf(s.cache, name) && p.result.Found? ==> ReadTable(s.store, name) == p.result
  }

  /** No generation has wrapped yet, and neither a captured one nor a lookup's number runs ahead. */
  ghost predicate GenOrdered(s: State, name: string, evictions: nat) {
    && GenOf(s.cache, name) <= evictions
    && (name in s.flights ==>
          && s.flights[name].id < s.nextFlight
          && var p := s.flights[name].phase;
             p.Captured? || p.HasRead? ==> p.gen <= GenOf(s.cache, name))
  }

  ghost predicate DisabledIsEmpty(ttl: int, s: State) {
    ttl <= 0 ==>
      && s.cache.entries == map[] && s.flights == map[]
      && forall id | id in s.callers :: s.callers[id].Bypassing? || s.callers[id].Done?
  }

  ghost predicate NameCoherent(s: State, name: string, evictions: nat) {
    EntryCoherent(s, name) && ReadCoherent(s, name) && GenOrdered(s, name, evictions)
  }

  /** Every name is coherent, after no more evictions than the bound. */
  ghost predicate Invariant(ttl: int, s: State, bound: nat) {
    DisabledIsEmpty(ttl, s) && forall name :: NameCoherent(s, name, bound)
  }

  /** The evictions of a name in a run, this action included. */
  function Counted(a: Action, name: string, evictions: nat): nat {
    if a == Evict(name) then evictions + 1 else evictions
  }

  function Evictions(acts: seq<Action>, name: string): (n: nat)
    ensures n <= |acts|
    decreases |acts|
  {
    if acts == [] then 0 else Counted(acts[|acts| - 1], name, Evictions(acts[..|acts| - 1], name))
  }

  /** Short of a wrap, the one step that moves a generation is a pending write's evict, by exactly one. */
  lemma StepMovesGen(ttl: int, s: State, a: Action, name: string, evictions: nat)
    requires GenOf(s.cache, name) <= evictions && Counted(a, name, evictions) < GEN_MODULUS
    ensures GenOf(Step(ttl, s, a).cache, name) ==
            GenOf(s.cache, name) + if a == Evict(name) && name in s.pending then 1 else 0
  {
    if a == Evict(name) {
      assert (GenOf(s.cache, name) + 1) % GEN_MODULUS == GenOf(s.cache, name) + 1;
    }
  }

  /** Only these steps reach what an entry's coherence depends on. */
  predicate Reaches(a: Action) {
    a.DropExpired? || a.Insert? || a.Commit? || a.Evict? || a.Create? || a.Outside?
  }

  lemma OtherStepsReachNothing(ttl: int, s: State, a: Action)
    requires !Reaches(a)
    ensures var s' := Step(ttl, s, a); s'.cache == s.cache && s'.store == s.store && s'.pending == s.pending
  {
  }

  lemma CacheStepsKeepEntry(ttl: int, s: State, a: Action, name: string)
    requires EntryCoherent(s, name) && ReadCoherent(s, name) && (a.DropExpired? || a.Insert? || a.Evict?)
    ensures EntryCoherent(Step(ttl, s, a), name)
  {
  }

  lemma WritesKeepEntry(ttl: int, s: State, a: Action, name: string)
    requires EntryCoherent(s, name) && DisabledIsEmpty(ttl, s) && (a.Commit? || a.Create?)
    ensures EntryCoherent(Step(ttl, s, a), name)
  {
  }

  lemma StepKeepsEntry(ttl: int, s: State, a: Action, name: string)
    requires EntryCoherent(s, name) && ReadCoherent(s, name) && DisabledIsEmpty(ttl, s) && !a.Outside?
    ensures EntryCoherent(Step(ttl, s, a), name)
  {
    if !Reaches(a) {
      OtherStepsReachNothing(ttl, s, a);
    } else if a.Commit? || a.Create? {
      WritesKeepEntry(ttl, s, a, name);
    } else {
      CacheStepsKeepEntry(ttl, s, a, name);
    }
  }

  lemma StepKeepsGen(ttl: int, s: State, a: Action, name: string, evictions: nat)
    requires GenOrdered(s, name, evictions) && Counted(a, name, evictions) < GEN_MODULUS
    ensures GenOrdered(Step(ttl, s, a), name, Counted(a, name, evictions))
  {
    StepMovesGen(ttl, s, a, name, evictions);
  }

  lemma StepKeepsRead(ttl: int, s: State, a: Action, name: string, evictions: nat)
    requires ReadCoherent(s, name) && GenOrdered(s, name, evictions) && DisabledIsEmpty(ttl, s)
    requires Counted(a, name, evictions) < GEN_MODULUS && !a.Outside?
    ensures ReadCoherent(Step(ttl, s, a), name)
  {
    StepMovesGen(ttl, s, a, name, evictions);
  }

  lemma StepKeepsDisabled(ttl: int, s: State, a: Action)
    requires DisabledIsEmpty(ttl, s)
    ensures DisabledIsEmpty(ttl, Step(ttl, s, a))
  {
  }

  lemma StepKeepsName(ttl: int, s: State, a: Action, name: string, evictions: nat)
    requires DisabledIsEmpty(ttl, s) && NameCoherent(s, name, evictions)
    requires Counted(a, name, evictions) < GEN_MODULUS && !a.Outside?
    ensures NameCoherent(Step(ttl, s, a), name, Counted(a, name, evictions))
  {
    StepKeepsEntry(ttl, s, a, name);
    StepKeepsRead(ttl, s, a, name, evictions);
    StepKeepsGen(ttl, s, a, name, evictions);
  }

  lemma {:induction false} RunKeepsDisabled(ttl: int, t: Table, now: int, acts: seq<Action>)
    ensures DisabledIsEmpty(ttl, Run(ttl, Start(t, now), acts))
    decreases |acts|
  {
    if acts != [] {
      RunKeepsDisabled(ttl, t, now, acts[..|acts| - 1]);
      StepKeepsDisabled(ttl, Run(ttl, Start(t, now), acts[..|acts| - 1]), acts[|acts| - 1]);
    }
  }

  /** In every interleaving in which a name is evicted fewer than 2^64 times, its cache entry agrees with the table. */
  lemma {:induction false} NameCoherence(ttl: int, t: Table, now: int, acts: seq<Action>, name: string)
    requires Decorated(acts) && Evictions(acts, name) < GEN_MODULUS
    ensures NameCoherent(Run(ttl, Start(t, now), acts), name, Evictions(acts, name))
    decreases |acts|
  {
    if acts != [] {
      var before, a := acts[..|acts| - 1], acts[|acts| - 1];
      NameCoherence(ttl, t, now, before, name);
      RunKeepsDisabled(ttl, t, now, before);
      StepKeepsName(ttl, Run(ttl, Start(t, now), before), a, name, Evictions(before, name));
    }
  }

  /** So where that holds of every name, the whole cache agrees with the table it speeds up. */
  lemma CacheCoherence(ttl: int, t: Table, now: int, acts: seq<Action>, bound: nat)
    requires Decorated(acts) && bound < GEN_MODULUS
    requires forall name :: Evictions(acts, name) <= bound
    ensures Invariant(ttl, Run(ttl, Start(t, now), acts), bound)
  {
    var s := Run(ttl, Start(t, now), acts);
    RunKeepsDisabled(ttl, t, now, acts);
    forall name ensures NameCoherent(s, name, bound) {
      NameCoherence(ttl, t, now, acts, name);
    }
  }

  // ---- Why evictions are bounded ----

  function EvictedTimes(c: Cache, name: string, n: nat): Cache {
    if n == 0 then c else Evicted(EvictedTimes(c, name, n - 1), name)
  }

  /**
   After n evictions during one lookup the generation it captured is current again exactly when n is a
   multiple of 2^64. CacheWrap gives the run in which the stale insert then lands.
   */
  lemma {:induction false} GenerationRepeats(c: Cache, name: string, n: nat)
    requires GenOf(c, name) < GEN_MODULUS
    ensures GenOf(EvictedTimes(c, name, n), name) == GenOf(c, name) <==> n % GEN_MODULUS == 0
  {
    GenAfterEvictions(c, name, n);
  }

  lemma {:induction false} GenAfterEvictions(c: Cache, name: string, n: nat)
    requires GenOf(c, name) < GEN_MODULUS
    ensures GenOf(EvictedTimes(c, name, n), name) == (GenOf(c, name) + n) % GEN_MODULUS
  {
    if n > 0 {
      GenAfterEvictions(c, name, n - 1);
    }
  }
}
