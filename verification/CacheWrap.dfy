/**
 The run in which a generation wraps. While one lookup is between its read and its insert, 2^64 writes
 of the name bring the counter back to the captured value, and the lookup's stale record is accepted.
 */
module CacheWrap {
  import opened Wrappers
  import opened Components
  import opened CacheModel
  import opened CacheFreshness

  /** One write, committed and evicted. */
  function Pair(name: string, p: Patch): seq<Action> {
    [Commit(name, Update(p)), Evict(name)]
  }

  /** The same write n times. */
  function Churn(name: string, p: Patch, n: nat): seq<Action> {
    if n == 0 then [] else Churn(name, p, n - 1) + Pair(name, p)
  }

  function Opening(name: string): seq<Action> {
    [Begin(1, name), Join(1), Capture(name), Read(name, true)]
  }

  /** A lookup reads the name, n writes go by, and the lookup inserts. */
  function Wrapping(name: string, p: Patch, n: nat): seq<Action> {
    Opening(name) + Churn(name, p, n) + [Insert(name)]
  }

  lemma {:induction false} ChurnEvicts(before: seq<Action>, name: string, p: Patch, n: nat)
    ensures Evictions(before + Churn(name, p, n), name) == Evictions(before, name) + n
  {
    if n == 0 {
      assert before + Churn(name, p, 0) == before;
    } else {
      ChurnEvicts(before, name, p, n - 1);
      PairEvicts(before + Churn(name, p, n - 1), name, p);
      assert before + Churn(name, p, n) == before + Churn(name, p, n - 1) + Pair(name, p);
    }
  }

  lemma PairEvicts(acts: seq<Action>, name: string, p: Patch)
    ensures Evictions(acts + Pair(name, p), name) == Evictions(acts, name) + 1
  {
    EvictionsGrow(acts, Commit(name, Update(p)), name);
    EvictionsGrow(acts + [Commit(name, Update(p))], Evict(name), name);
    assert acts + Pair(name, p) == acts + [Commit(name, Update(p))] + [Evict(name)];
  }

  lemma EvictionsGrow(acts: seq<Action>, a: Action, name: string)
    ensures Evictions(acts + [a], name) == Counted(a, name, Evictions(acts, name))
  {
    assert (acts + [a])[..|acts + [a]| - 1] == acts;
  }

  /** The state between the read and the insert, after n writes of which none is left to evict. */
  function Churned(t: Table, now: int, name: string, p: Patch, n: nat): State
    requires name in t
  {
    WithFlight(t, now, name, HasRead(0, Found(t[name]), now)).(
      store := if n == 0 then t else t[name := Patched(t[name], p)],
      cache := Cache(map[], if n == 0 then map[] else map[name := n % GEN_MODULUS]))
  }

  lemma PairLeads(ttl: int, s: State, committed: State, evicted: State, name: string, p: Patch)
    requires Step(ttl, s, Commit(name, Update(p))) == committed && Step(ttl, committed, Evict(name)) == evicted
    ensures Run(ttl, s, Pair(name, p)) == evicted
  {
    RunOfTwo(ttl, s, Commit(name, Update(p)), Evict(name));
  }

  /** The same, with the last write committed and not yet evicted. */
  function Unevicted(t: Table, now: int, name: string, p: Patch, n: nat): State
    requires name in t
  {
    Churned(t, now, name, p, n).(store := t[name := Patched(t[name], p)], pending := multiset{name})
  }

  lemma WriteCommits(ttl: int, t: Table, now: int, name: string, p: Patch, n: nat)
    requires ttl > 0 && name in t && Committed(t, name, Update(p)).Some?
    ensures Step(ttl, Churned(t, now, name, p, n), Commit(name, Update(p))) == Unevicted(t, now, name, p, n)
  {
    assert multiset{} + multiset{name} == multiset{name};
    assert Patched(Patched(t[name], p), p) == Patched(t[name], p);
  }

  lemma CounterSteps(n: nat)
    ensures (n % GEN_MODULUS + 1) % GEN_MODULUS == (n + 1) % GEN_MODULUS
  {
  }

  lemma WriteEvicts(ttl: int, t: Table, now: int, name: string, p: Patch, n: nat)
    requires name in t
    ensures Step(ttl, Unevicted(t, now, name, p, n), Evict(name)) == Churned(t, now, name, p, n + 1)
  {
    CounterSteps(n);
    assert Evicted(Churned(t, now, name, p, n).cache, name) == Churned(t, now, name, p, n + 1).cache;
    assert multiset{name} - multiset{name} == multiset{};
  }

  lemma Chain(ttl: int, s: State, mid: State, committed: State, end: State, name: string, p: Patch, n: nat)
    requires Run(ttl, s, Churn(name, p, n)) == mid
    requires Step(ttl, mid, Commit(name, Update(p))) == committed && Step(ttl, committed, Evict(name)) == end
    ensures Run(ttl, s, Churn(name, p, n + 1)) == end
  {
    PairLeads(ttl, mid, committed, end, name, p);
    RunsConcatenate(ttl, s, Churn(name, p, n), Pair(name, p));
  }

  lemma OneMoreWrite(ttl: int, s: State, mid: State, t: Table, now: int, name: string, p: Patch, n: nat)
    requires ttl > 0 && name in t && Committed(t, name, Update(p)).Some?
    requires Run(ttl, s, Churn(name, p, n)) == mid == Churned(t, now, name, p, n)
    ensures Run(ttl, s, Churn(name, p, n + 1)) == Churned(t, now, name, p, n + 1)
  {
    var committed, end := Unevicted(t, now, name, p, n), Churned(t, now, name, p, n + 1);
    assert Step(ttl, mid, Commit(name, Update(p))) == committed by {
      WriteCommits(ttl, t, now, name, p, n);
    }
    assert Step(ttl, committed, Evict(name)) == end by {
      WriteEvicts(ttl, t, now, name, p, n);
    }
    Chain(ttl, s, mid, committed, end, name, p, n);
  }

  lemma {:induction false} ChurnLeads(ttl: int, s: State, t: Table, now: int, name: string, p: Patch, n: nat)
    requires ttl > 0 && name in t && Committed(t, name, Update(p)).Some? && s == Churned(t, now, name, p, 0)
    ensures Run(ttl, s, Churn(name, p, n)) == Churned(t, now, name, p, n)
  {
    if n == 0 {
      assert Run(ttl, s, []) == s;
    } else {
      ChurnLeads(ttl, s, t, now, name, p, n - 1);
      OneMoreWrite(ttl, s, Run(ttl, s, Churn(name, p, n - 1)), t, now, name, p, n - 1);
    }
  }

  lemma WrappingLeads(ttl: int, t: Table, now: int, name: string, p: Patch, n: nat)
    requires ttl > 0 && name in t && Committed(t, name, Update(p)).Some?
    ensures Run(ttl, Start(t, now), Wrapping(name, p, n)) == Step(ttl, Churned(t, now, name, p, n), Insert(name))
  {
    FirstCallerReads(ttl, t, name, now);
    RunsConcatenate(ttl, Start(t, now), Opening(name), Churn(name, p, n));
    ChurnLeads(ttl, Churned(t, now, name, p, 0), t, now, name, p, n);
    RunGrows(ttl, Start(t, now), Opening(name) + Churn(name, p, n), Insert(name));
  }

  /**
   For every public component and every patch that changes it: after n writes the lookup's record lands
   in the cache exactly when n is a multiple of 2^64, and the cache disagrees with the table, with no
   write left to evict, exactly when n is such a multiple and not zero. The run evicts the name n times,
   so the bound of NameCoherence, fewer than 2^64 evictions, cannot be raised.
   */
  lemma WrapBreaksCoherenceIff(ttl: int, t: Table, now: int, name: string, p: Patch, n: nat)
    requires ttl > 0 && name in t && Public(t[name])
    requires Committed(t, name, Update(p)).Some? && Patched(t[name], p) != t[name]
    ensures var acts := Wrapping(name, p, n);
            var s := Run(ttl, Start(t, now), acts);
            && Decorated(acts) && Evictions(acts, name) == n && s.pending[name] == 0
            && (name in s.cache.entries <==> n % GEN_MODULUS == 0)
            && (name in s.cache.entries ==> s.cache.entries[name].comp == t[name])
            && (!EntryCoherent(s, name) <==> n > 0 && n % GEN_MODULUS == 0)
  {
    WrappingLeads(ttl, t, now, name, p, n);
    WrappingIsCounted(name, p, n);
  }

  lemma WrappingIsCounted(name: string, p: Patch, n: nat)
    ensures Decorated(Wrapping(name, p, n)) && Evictions(Wrapping(name, p, n), name) == n
  {
    var o := Opening(name);
    EvictionsGrow([], o[0], name);
    EvictionsGrow(o[..1], o[1], name);
    EvictionsGrow(o[..2], o[2], name);
    EvictionsGrow(o[..3], o[3], name);
    assert [] + [o[0]] == o[..1] && o[..1] + [o[1]] == o[..2] && o[..2] + [o[2]] == o[..3] && o[..3] + [o[3]] == o;
    ChurnEvicts(o, name, p, n);
    EvictionsGrow(o + Churn(name, p, n), Insert(name), name);
    ChurnIsDecorated(name, p, n);
  }

  lemma {:induction false} ChurnIsDecorated(name: string, p: Patch, n: nat)
    ensures Decorated(Churn(name, p, n))
  {
    if n > 0 {
      ChurnIsDecorated(name, p, n - 1);
    }
  }
}
