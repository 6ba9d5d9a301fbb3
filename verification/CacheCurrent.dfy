/**
 Exactly when a call is never answered out of the past. From any state whatever, on a clock that may go
 anywhere or on one that only moves forward: every later call of a name is answered with an error or a
 value the table held since, if and only if the name's entry and its running lookup are current.
 */
module CacheCurrent {
  import opened Wrappers
  import opened Components
  import opened CacheModel
  import opened CacheFreshness
  import opened CacheStaleness

  /** What the table says of the name, or an error. */
  predicate UpToDate(s: State, name: string, r: GetResult) {
    r == Failed || r == ReadTable(s.store, name)
  }

  /** Whether an entry can still be served, on a clock that only moves forward when `forward` is set. */
  predicate Servable(now: int, e: Entry, forward: bool) {
    forward ==> now < e.expiresAt
  }

  /** The result a lookup will hand out, once it has one. */
  function ResultOf(f: Flight): Option<GetResult> {
    match f.phase
    case HasRead(_, r, _) => Some(r)
    case Settled(r) => Some(r)
    case _ => None
  }

  /**
   A cached entry that can still be served has the stored value, and so has what a running lookup has read.
   A lookup that has not read yet does no harm, and neither does a write that is still to be evicted.
   */
  predicate Current(s: State, name: string, forward: bool) {
    && (name in s.cache.entries && Servable(s.now, s.cache.entries[name], forward) ==>
          UpToDate(s, name, Found(s.cache.entries[name].comp)))
    && (name in s.flights && ResultOf(s.flights[name]).Some? ==> UpToDate(s, name, ResultOf(s.flights[name]).value))
  }

  predicate Allowed(acts: seq<Action>, forward: bool) {
    forward ==> ClockForward(acts)
  }

  /** A call of the name that begins after s0 has its answer at the end of the run. */
  predicate Answered(ttl: int, s0: State, acts: seq<Action>, id: nat, name: string) {
    && id !in s0.callers
    && var s := Run(ttl, s0, acts);
       id in s.callers && s.callers[id].Done? && s.callers[id].name == name
  }

  ghost predicate AnsweredFresh(ttl: int, s0: State, acts: seq<Action>, id: nat, name: string)
    requires Answered(ttl, s0, acts, id, name)
  {
    Run(ttl, s0, acts).callers[id].result in Snapshots(ttl, s0, acts, name)
  }

  /** Every later call of the name, in every run, is answered with an error or a value the table held since. */
  ghost predicate AlwaysFresh(ttl: int, s0: State, name: string, forward: bool) {
    forall acts: seq<Action>, id: nat | Allowed(acts, forward) && Answered(ttl, s0, acts, id, name) ::
      AnsweredFresh(ttl, s0, acts, id, name)
  }

  // ---- Current is enough ----

  ghost predicate NameServes(seen: set<GetResult>, s: State, name: string, forward: bool) {
    && (name in s.cache.entries && Servable(s.now, s.cache.entries[name], forward) ==>
          Found(s.cache.entries[name].comp) in seen)
    && (name in s.flights && ResultOf(s.flights[name]).Some? ==> ResultOf(s.flights[name]).value in seen)
  }

  ghost predicate CallerServes(seen: set<GetResult>, s: State, c: Caller, forward: bool) {
    match c
    case Looking(_, e) => Servable(s.now, e, forward) ==> Found(e.comp) in seen
    case Done(_, r, _) => r in seen
    case _ => true
  }

  predicate TickAllowed(a: Action, forward: bool) {
    forward && a.Tick? ==> a.delta >= 0
  }

  lemma StepKeepsName(ttl: int, s: State, a: Action, name: string, forward: bool, seen: set<GetResult>)
    requires NameServes(seen, s, name, forward) && TickAllowed(a, forward)
    requires Failed in seen && ReadTable(s.store, name) in seen
    ensures NameServes(seen, Step(ttl, s, a), name, forward)
  {
  }

  lemma StepKeepsCaller(ttl: int, s: State, a: Action, id: nat, forward: bool, seen: set<GetResult>)
    requires var s' := Step(ttl, s, a); id in s'.callers && NameServes(seen, s, s'.callers[id].name, forward)
    requires id in s.callers ==> CallerServes(seen, s, s.callers[id], forward)
    requires TickAllowed(a, forward)
    requires Failed in seen && ReadTable(s.store, Step(ttl, s, a).callers[id].name) in seen
    ensures CallerServes(seen, Step(ttl, s, a), Step(ttl, s, a).callers[id], forward)
  {
  }

  /** The picture after a run, for one name and one caller begun since. */
  ghost predicate Serves(ttl: int, s0: State, acts: seq<Action>, name: string, id: nat, forward: bool) {
    var s, seen := Run(ttl, s0, acts), Snapshots(ttl, s0, acts, name);
    && NameServes(seen, s, name, forward)
    && (id in s.callers && s.callers[id].name == name ==> CallerServes(seen, s, s.callers[id], forward))
  }

  lemma MoreServes(seen: set<GetResult>, more: set<GetResult>, s: State, name: string, c: Caller, forward: bool)
    requires seen <= more
    ensures NameServes(seen, s, name, forward) ==> NameServes(more, s, name, forward)
    ensures CallerServes(seen, s, c, forward) ==> CallerServes(more, s, c, forward)
  {
  }

  lemma StepKeepsServing(ttl: int, s0: State, before: seq<Action>, a: Action, name: string, id: nat, forward: bool)
    requires Serves(ttl, s0, before, name, id, forward) && TickAllowed(a, forward)
    ensures Serves(ttl, s0, before + [a], name, id, forward)
  {
    var s, acts := Run(ttl, s0, before), before + [a];
    var s' := Step(ttl, s, a);
    RunGrows(ttl, s0, before, a);
    assert acts[..|acts| - 1] == before;
    var seen, more := Snapshots(ttl, s0, before, name), Snapshots(ttl, s0, acts, name);
    StepKeepsName(ttl, s, a, name, forward, seen);
    if id in s.callers {
      CallersKeepNames(ttl, s, a, id);
    }
    if id in s'.callers && s'.callers[id].name == name {
      StepKeepsCaller(ttl, s, a, id, forward, seen);
      MoreServes(seen, more, s', name, s'.callers[id], forward);
    } else {
      MoreServes(seen, more, s', name, Missed(name), forward);
    }
  }

  lemma {:induction false} RunKeepsServing(ttl: int, s0: State, acts: seq<Action>, name: string, id: nat, forward: bool)
    requires Current(s0, name, forward) && id !in s0.callers && Allowed(acts, forward)
    ensures Serves(ttl, s0, acts, name, id, forward)
    decreases |acts|
  {
    if acts != [] {
      var before, a := acts[..|acts| - 1], acts[|acts| - 1];
      RunKeepsServing(ttl, s0, before, name, id, forward);
      StepKeepsServing(ttl, s0, before, a, name, id, forward);
      assert before + [a] == acts;
    }
  }

  // ---- And it is needed ----

  lemma {:induction false} FreshNumber(taken: set<nat>) returns (n: nat)
    ensures forall k | k in taken :: k < n
    decreases taken
  {
    n := 0;
    if taken != {} {
      var k :| k in taken;
      var m := FreshNumber(taken - {k});
      n := if k < m then m else k + 1;
      forall x | x in taken ensures x < n {
        assert x == k || x in taken - {k};
      }
    }
  }

  /** A lookup of the cached entry, at a moment when it is not expired. */
  function ServeEntry(s: State, id: nat, name: string): seq<Action>
    requires name in s.cache.entries
  {
    var e := s.cache.entries[name];
    [Begin(id, name), Tick(if s.now < e.expiresAt then 0 else e.expiresAt - 1 - s.now), CheckTime(id)]
  }

  /** A lookup that misses, if need be by waiting for the entry to expire, and joins the lookup that is running. */
  function MissFirst(s: State, id: nat, name: string): seq<Action> {
    var wait := if name in s.cache.entries && s.now < s.cache.entries[name].expiresAt
                then s.cache.entries[name].expiresAt - s.now else 0;
    [Begin(id, name), Tick(wait), CheckTime(id)]
  }

  function JoinLate(id: nat, name: string): seq<Action> {
    [DropExpired(id), Join(id)] + [Insert(name), Finish(name)]
  }

  lemma {:induction false} SnapshotsOfUnchanged(ttl: int, s0: State, acts: seq<Action>, name: string)
    requires forall k | 0 <= k <= |acts| :: Run(ttl, s0, acts[..k]).store == s0.store
    ensures Snapshots(ttl, s0, acts, name) == {Failed, ReadTable(s0.store, name)}
    decreases |acts|
  {
    assert acts[..|acts|] == acts;
    if acts != [] {
      var before := acts[..|acts| - 1];
      forall k | 0 <= k <= |before| ensures Run(ttl, s0, before[..k]).store == s0.store {
        assert before[..k] == acts[..k];
      }
      SnapshotsOfUnchanged(ttl, s0, before, name);
    }
  }

  /** Only these write the table. */
  predicate Writes(a: Action) {
    a.Commit? || a.Create? || a.Outside?
  }

  lemma {:induction false} NoWritesNoChange(ttl: int, s0: State, acts: seq<Action>)
    requires forall a | a in acts :: !Writes(a)
    ensures Run(ttl, s0, acts).store == s0.store
    decreases |acts|
  {
    if acts != [] {
      var before, a := acts[..|acts| - 1], acts[|acts| - 1];
      assert a in acts && forall x | x in before :: x in acts;
      NoWritesNoChange(ttl, s0, before);
    }
  }

  lemma ReadOnlySnapshots(ttl: int, s0: State, acts: seq<Action>, name: string)
    requires forall a | a in acts :: !Writes(a)
    ensures Snapshots(ttl, s0, acts, name) == {Failed, ReadTable(s0.store, name)}
  {
    forall k | 0 <= k <= |acts| ensures Run(ttl, s0, acts[..k]).store == s0.store {
      NoWritesNoChange(ttl, s0, acts[..k]);
    }
    SnapshotsOfUnchanged(ttl, s0, acts, name);
  }

  lemma EntryIsServed(ttl: int, s: State, id: nat, name: string)
    requires ttl > 0 && id !in s.callers && name in s.cache.entries
    ensures Answered(ttl, s, ServeEntry(s, id, name), id, name)
    ensures Run(ttl, s, ServeEntry(s, id, name)).callers[id].result == Found(s.cache.entries[name].comp)
  {
    var acts := ServeEntry(s, id, name);
    RunOfThree(ttl, s, acts[0], acts[1], acts[2]);
  }

  /** After waiting, the caller has missed, or has found the entry expired. */
  lemma EntryIsMissed(ttl: int, s: State, id: nat, name: string)
    requires ttl > 0 && id !in s.callers && name in s.flights
    ensures var s3 := Run(ttl, s, MissFirst(s, id, name));
            && s3.flights == s.flights && id in s3.callers && s3.callers[id].name == name
            && (s3.callers[id].Missed? || s3.callers[id].Expired?)
  {
    var acts := MissFirst(s, id, name);
    RunOfThree(ttl, s, acts[0], acts[1], acts[2]);
  }

  lemma JoinsLate(ttl: int, s: State, id: nat, name: string)
    requires name in s.flights && id in s.callers && s.callers[id].name == name
    requires s.callers[id].Missed? || s.callers[id].Expired?
    ensures var s5 := Run(ttl, s, [DropExpired(id), Join(id)]);
            s5.flights == s.flights && id in s5.callers && s5.callers[id] == Waiting(name, s.flights[name].id)
  {
    RunOfTwo(ttl, s, DropExpired(id), Join(id));
  }

  lemma LookupDelivers(ttl: int, s: State, id: nat, name: string)
    requires name in s.flights && ResultOf(s.flights[name]).Some?
    requires id in s.callers && s.callers[id] == Waiting(name, s.flights[name].id)
    ensures var end := Run(ttl, s, [Insert(name), Finish(name)]);
            && id in end.callers && end.callers[id].Done? && end.callers[id].name == name
            && end.callers[id].result == ResultOf(s.flights[name]).value
  {
    RunOfTwo(ttl, s, Insert(name), Finish(name));
  }

  lemma LookupIsJoined(ttl: int, s: State, id: nat, name: string)
    requires ttl > 0 && id !in s.callers && name in s.flights && ResultOf(s.flights[name]).Some?
    ensures var acts := MissFirst(s, id, name) + JoinLate(id, name);
            && Answered(ttl, s, acts, id, name)
            && Run(ttl, s, acts).callers[id].result == ResultOf(s.flights[name]).value
  {
    EntryIsMissed(ttl, s, id, name);
    var s3 := Run(ttl, s, MissFirst(s, id, name));
    JoinsLate(ttl, s3, id, name);
    LookupDelivers(ttl, Run(ttl, s3, [DropExpired(id), Join(id)]), id, name);
    RunsConcatenate(ttl, s3, [DropExpired(id), Join(id)], [Insert(name), Finish(name)]);
    RunsConcatenate(ttl, s, MissFirst(s, id, name), JoinLate(id, name));
  }

  lemma StaleIsServed(ttl: int, s0: State, name: string, forward: bool)
    requires ttl > 0 && !Current(s0, name, forward)
    ensures !AlwaysFresh(ttl, s0, name, forward)
  {
    var id := FreshNumber(s0.callers.Keys);
    var stale := name in s0.cache.entries && Servable(s0.now, s0.cache.entries[name], forward)
                 && !UpToDate(s0, name, Found(s0.cache.entries[name].comp));
    var acts := if stale then ServeEntry(s0, id, name) else MissFirst(s0, id, name) + JoinLate(id, name);
    if stale {
      EntryIsServed(ttl, s0, id, name);
    } else {
      LookupIsJoined(ttl, s0, id, name);
    }
    ReadOnlySnapshots(ttl, s0, acts, name);
    assert Allowed(acts, forward) && Answered(ttl, s0, acts, id, name) && !AnsweredFresh(ttl, s0, acts, id, name);
  }

  /**
   From any state of an enabled cache, and on either kind of clock: later calls of the name are always
   answered with an error or a value the table held since, if and only if the name is current.
   */
  lemma FreshIffCurrent(ttl: int, s0: State, name: string, forward: bool)
    requires ttl > 0
    ensures AlwaysFresh(ttl, s0, name, forward) <==> Current(s0, name, forward)
  {
    if Current(s0, name, forward) {
      forall acts: seq<Action>, id: nat | Allowed(acts, forward) && Answered(ttl, s0, acts, id, name)
        ensures AnsweredFresh(ttl, s0, acts, id, name)
      {
        RunKeepsServing(ttl, s0, acts, name, id, forward);
      }
    } else {
      StaleIsServed(ttl, s0, name, forward);
    }
  }

  /** One answer: from a current state on, an error or a value the table held at or after it. */
  lemma AllAnswersAreFresh(ttl: int, s0: State, acts: seq<Action>, id: nat, name: string, forward: bool)
    requires Current(s0, name, forward) && Allowed(acts, forward) && Answered(ttl, s0, acts, id, name)
    ensures var c := Run(ttl, s0, acts).callers[id];
            c.result == Failed ||
            exists k | 0 <= k <= |acts| :: c.result == ReadTable(Run(ttl, s0, acts[..k]).store, name)
  {
    RunKeepsServing(ttl, s0, acts, name, id, forward);
    SnapshotsAreTableValues(ttl, s0, acts, name, Run(ttl, s0, acts).callers[id].result);
  }

  /**
   A coherent name without an unevicted write is current, unless an older lookup of it has read a value and not
   been forgotten.
   */
  lemma CoherentIsCurrent(ttl: int, s: State, bound: nat, name: string, forward: bool)
    requires Invariant(ttl, s, bound) && s.pending[name] == 0
    requires name in s.flights ==> ResultOf(s.flights[name]).None?
    ensures Current(s, name, forward)
  {
    assert NameCoherent(s, name, bound);
  }

  /**
   Not every reachable state is: after any write that changes the row, with an older lookup still running, the
   name is not.
   */
  lemma OvertakenIsNotCurrent(ttl: int, t: Table, name: string, w: Write, now: int, forward: bool)
    requires ttl > 0 && name in t && Committed(t, name, w).Some?
    requires ReadTable(Committed(t, name, w).value, name) != Found(t[name])
    ensures !Current(Run(ttl, Start(t, now), Overtaken(name, w)), name, forward)
  {
    OvertakenLeadsToQuiet(ttl, t, name, w, now);
    QuietIsNotCurrent(Run(ttl, Start(t, now), Overtaken(name, w)), t, name, w, forward);
  }

  lemma QuietIsNotCurrent(s: State, t: Table, name: string, w: Write, forward: bool)
    requires name in t && Committed(t, name, w).Some? && Quiet(s, t, name, w)
    requires ReadTable(Committed(t, name, w).value, name) != Found(t[name])
    ensures !Current(s, name, forward)
  {
  }
}
