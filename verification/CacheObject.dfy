/**
 The cache as the object the service runs: two maps updated in place, records whose lists are shared
 heap arrays, and the clones that keep callers away from the cached ones. Each method's effect is the
 atomic step of CacheModel it implements.
 */
module CacheObject {
  import opened Wrappers
  import opened Components
  import opened CacheModel

  /** A component as Go holds it: lists are references to backing arrays, null when nil. */
  datatype Record = Record(
    name: string,
    visibility: string,
    series: array?<string>,
    families: array?<string>,
    architectures: array?<string>,
    createdAt: int)

  function ListOf(a: array?<string>): seq<string>
    reads a
  {
    if a == null then [] else a[..]
  }

  function Lists(r: Record): set<array<string>> {
    (if r.series == null then {} else {r.series}) +
    (if r.families == null then {} else {r.families}) +
    (if r.architectures == null then {} else {r.architectures})
  }

  function Value(r: Record): Component
    reads Lists(r)
  {
    Component(r.name, r.visibility, ListOf(r.series), ListOf(r.families), ListOf(r.architectures), r.createdAt)
  }

  method CloneList(a: array?<string>) returns (b: array?<string>)
    ensures ListOf(b) == ListOf(a)
    ensures b == null <==> a == null
    ensures b != null ==> fresh(b)
  {
    if a == null {
      b := null;
    } else {
      b := new string[a.Length](i requires 0 <= i < a.Length reads a => a[i]);
    }
  }

  method CloneComponent(src: Record) returns (r: Record)
    ensures Value(r) == Value(src)
    ensures fresh(Lists(r))
  {
    var series := CloneList(src.series);
    var families := CloneList(src.families);
    var architectures := CloneList(src.architectures);
    r := src.(series := series, families := families, architectures := architectures);
  }

  method NewList(s: seq<string>) returns (a: array<string>)
    ensures fresh(a) && a[..] == s
  {
    a := new string[|s|](i requires 0 <= i < |s| => s[i]);
  }

  /** The decorated store: every read builds a new record from the row. */
  class ComponentStore {
    var table: Table

    constructor (t: Table)
      ensures table == t
    {
      table := t;
    }

    method Get(name: string, ok: bool) returns (err: GetResult, r: Option<Record>)
      ensures err == ReadTable(table, name, ok)
      ensures r.Some? <==> err.Found?
      ensures r.Some? ==> Value(r.value) == err.comp && fresh(Lists(r.value))
    {
      err := ReadTable(table, name, ok);
      r := None;
      if err.Found? {
        var c := err.comp;
        var series := NewList(c.series);
        var families := NewList(c.families);
        var architectures := NewList(c.architectures);
        r := Some(Record(c.name, c.visibility, series, families, architectures, c.createdAt));
      }
    }

    method Write(name: string, w: Write) returns (ok: bool)
      modifies this
      ensures ok <==> Committed(old(table), name, w).Some?
      ensures table == if ok then Committed(old(table), name, w).value else old(table)
    {
      var t := Committed(table, name, w);
      ok := t.Some?;
      if ok {
        table := t.value;
      }
    }
  }

  datatype Held = Held(comp: Record, expiresAt: int)

  /** What a shared lookup does to the cache. */
  function FetchedCache(ttl: int, c: Cache, t: Table, name: string, ok: bool, now: int): Cache {
    var r := ReadTable(t, name, ok);
    if r.Found? && Public(r.comp) then Inserted(c, name, r.comp, GenOf(c, name), now + ttl) else c
  }

  class CachedComponentStore {
    const inner: ComponentStore
    const ttl: int
    var entries: map<string, Held>
    var gen: map<string, nat>

    /** The backing arrays of the entries, of the results of shared lookups, and every array a caller was ever given. */
    ghost var Owned: set<array<string>>
    ghost var Pending: set<array<string>>
    ghost var Lent: set<array<string>>

    /** The two maps as values. */
    ghost var Contents: Cache

    ghost predicate Valid()
      reads this, Owned
    {
      && Owned !! Lent && Pending !! Lent
      && Contents.gen == gen
      && Contents.entries.Keys == entries.Keys
      && forall name | name in entries ::
           && Lists(entries[name].comp) <= Owned
           && Contents.entries[name] == Entry(Value(entries[name].comp), entries[name].expiresAt)
    }

    constructor (inner: ComponentStore, ttl: int)
      ensures Valid() && Contents == Cache(map[], map[])
      ensures this.inner == inner && this.ttl == ttl && Pending == Lent == {}
    {
      this.inner := inner;
      this.ttl := ttl;
      entries := map[];
      gen := map[];
      Owned, Pending, Lent := {}, {}, {};
      Contents := Cache(map[], map[]);
    }

    method Generation(name: string) returns (g: nat)
      requires Valid()
      ensures g == GenOf(Contents, name)
    {
      g := if name in gen then gen[name] else 0;
    }

    /** Both critical sections of lookup, with nothing in between. */
    method Lookup(name: string, now: int) returns (hit: Option<Record>)
      requires Valid()
      modifies this
      ensures Valid() && Owned == old(Owned) && Pending == old(Pending)
      ensures var c := old(Contents);
              if name in c.entries && now < c.entries[name].expiresAt
              then hit.Some? && Value(hit.value) == c.entries[name].comp && Contents == c
              else hit.None? && Contents == if name in c.entries then Dropped(c, name, c.entries[name]) else c
      ensures Lent == old(Lent) + if hit.Some? then Lists(hit.value) else {}
      ensures hit.Some? ==> fresh(Lists(hit.value))
    {
      hit := None;
      if name !in entries {
        return;
      }
      var e := entries[name];
      if now < e.expiresAt {
        var r := Lend(e.comp);
        return Some(r);
      }
      if name in entries && entries[name].expiresAt == e.expiresAt {
        entries := entries - {name};
        Contents := Dropped(Contents, name, Contents.entries[name]);
      }
    }

    method Insert(name: string, comp: Record, g: nat, now: int)
      requires Valid()
      modifies this
      ensures Valid() && Lent == old(Lent) && Pending == old(Pending) && old(Owned) <= Owned
              && fresh(Owned - old(Owned))
      ensures Contents == Inserted(old(Contents), name, old(Value(comp)), g, now + ttl)
    {
      var current := if name in gen then gen[name] else 0;
      if current != g {
        return;
      }
      var copy := CloneComponent(comp);
      Hold(name, Held(copy, now + ttl));
    }

    /** The assignment to the entries map, of a record no caller holds. */
    method Hold(name: string, e: Held)
      requires Valid() && Lists(e.comp) !! Lent
      modifies this
      ensures Valid() && Lent == old(Lent) && Pending == old(Pending) && Owned == old(Owned) + Lists(e.comp)
      ensures Contents == old(Contents).(entries := old(Contents).entries[name := Entry(old(Value(e.comp)),
              e.expiresAt)])
    {
      entries := entries[name := e];
      Contents := Contents.(entries := Contents.entries[name := Entry(Value(e.comp), e.expiresAt)]);
      Owned := Owned + Lists(e.comp);
    }

    method Evict(name: string)
      requires Valid()
      modifies this
      ensures Valid() && Lent == old(Lent) && Pending == old(Pending) && Owned == old(Owned)
      ensures Contents == Evicted(old(Contents), name)
    {
      entries := entries - {name};
      gen := gen[name := ((if name in gen then gen[name] else 0) + 1) % GEN_MODULUS];
      Contents := Evicted(Contents, name);
    }

    /** The function singleflight runs: generation, read, insert. */
    method ReadAndInsert(name: string, ok: bool, now: int) returns (result: GetResult, v: Option<Record>)
      requires Valid()
      modifies this
      ensures Valid() && Lent == old(Lent) && Pending == old(Pending) && inner.table == old(inner.table)
      ensures result == ReadTable(inner.table, name, ok) && (v.Some? <==> result.Found?)
      ensures v.Some? ==> Value(v.value) == result.comp && fresh(Lists(v.value)) && Lists(v.value) !! Owned
      ensures var c := old(Contents);
              Contents == if result.Found? && Public(result.comp)
                            then Inserted(c, name, result.comp, GenOf(c, name), now + ttl) else c
    {
      var g := Generation(name);
      result, v := inner.Get(name, ok);
      if v.Some? && v.value.visibility == "public" {
        Insert(name, v.value, g, now);
      }
    }

    /** One shared lookup; its record is kept for whoever waits for it. */
    method Fetch(name: string, ok: bool, now: int) returns (result: GetResult, v: Option<Record>)
      requires Valid()
      modifies this
      ensures Valid() && Lent == old(Lent) && inner.table == old(inner.table)
      ensures result == ReadTable(inner.table, name, ok) && (v.Some? <==> result.Found?)
      ensures v.Some? ==> Value(v.value) == result.comp && fresh(Lists(v.value)) && Lists(v.value) !! Owned + Lent
      ensures Pending == old(Pending) + if v.Some? then Lists(v.value) else {}
      ensures Contents == FetchedCache(ttl, old(Contents), inner.table, name, ok, now)
    {
      result, v := ReadAndInsert(name, ok, now);
      if v.Some? {
        Pending := Pending + Lists(v.value);
      }
    }

    /** The last lines of GetComponent: a leader, like every joiner, takes its own clone of the one result. */
    method Lend(v: Record) returns (r: Record)
      requires Valid()
      modifies this
      ensures Valid() && Contents == old(Contents)
      ensures Value(r) == old(Value(v)) && fresh(Lists(r))
      ensures Lent == old(Lent) + Lists(r) && Owned == old(Owned) && Pending == old(Pending)
    {
      r := CloneComponent(v);
      Lent := Lent + Lists(r);
    }

    method Miss(name: string, ok: bool, now: int) returns (result: GetResult, r: Option<Record>)
      requires Valid()
      modifies this
      ensures Valid() && old(Lent) <= Lent && fresh(Lent - old(Lent)) && old(Pending) <= Pending
      ensures inner.table == old(inner.table)
      ensures result == ReadTable(inner.table, name, ok) && (r.Some? <==> result.Found?)
      ensures r.Some? ==> Value(r.value) == result.comp && fresh(Lists(r.value)) && Lists(r.value) <= Lent
      ensures Contents == FetchedCache(ttl, old(Contents), inner.table, name, ok, now)
    {
      var v;
      result, v := Fetch(name, ok, now);
      r := None;
      if v.Some? {
        var copy := Lend(v.value);
        r := Some(copy);
      }
    }

    method PassThrough(name: string, ok: bool) returns (result: GetResult, r: Option<Record>)
      requires Valid()
      modifies this
      ensures Valid() && old(Lent) <= Lent && fresh(Lent - old(Lent)) && Pending == old(Pending)
      ensures Contents == old(Contents) && inner.table == old(inner.table)
      ensures result == ReadTable(inner.table, name, ok) && (r.Some? <==> result.Found?)
      ensures r.Some? ==> Value(r.value) == result.comp && fresh(Lists(r.value)) && Lists(r.value) <= Lent
    {
      result, r := inner.Get(name, ok);
      if r.Some? {
        Lent := Lent + Lists(r.value);
      }
    }

    /** GetComponent with nothing running beside it. */
    method GetComponent(name: string, ok: bool, now: int) returns (result: GetResult, r: Option<Record>)
      requires Valid()
      modifies this
      ensures Valid() && old(Lent) <= Lent && fresh(Lent - old(Lent)) && old(Pending) <= Pending
      ensures inner.table == old(inner.table)
      ensures Contents == Alone(ttl, old(Contents), inner.table, name, ok, now).0
      ensures result == Alone(ttl, old(Contents), inner.table, name, ok, now).1
      ensures r.Some? <==> result.Found?
      ensures r.Some? ==> Value(r.value) == result.comp && fresh(Lists(r.value)) && Lists(r.value) <= Lent
    {
      if ttl <= 0 {
        result, r := PassThrough(name, ok);
      } else {
        var hit := Lookup(name, now);
        if hit.Some? {
          result, r := Found(Value(hit.value)), hit;
        } else {
          result, r := Miss(name, ok, now);
        }
      }
    }

    /** UpdateComponent, DeleteComponent and DeleteComponentWithRevoke: evict on success only. */
    method Write(name: string, w: Write) returns (ok: bool)
      requires Valid()
      modifies this, inner
      ensures Valid() && Lent == old(Lent) && Pending == old(Pending)
      ensures ok <==> Committed(old(inner.table), name, w).Some?
      ensures inner.table == if ok then Committed(old(inner.table), name, w).value else old(inner.table)
      ensures Contents == if ok && ttl > 0 then Evicted(old(Contents), name) else old(Contents)
    {
      ok := inner.Write(name, w);
      if ok && ttl > 0 {
        Evict(name);
      }
    }
  }

  /**
   Isolation, for one write: whatever a caller writes into any list of any component it was ever given, on
   a hit, as the leader of a lookup or as a joiner, every cache entry keeps its value, and so does the
   result of a lookup that joiners are still to take their clones of.
   */
  method CallerWrites(c: CachedComponentStore, pending: Record, a: array<string>, i: nat, text: string)
    requires c.Valid() && a in c.Lent && i < a.Length && Lists(pending) <= c.Pending
    modifies a
    ensures c.Valid() && c.Contents == old(c.Contents)
    ensures Value(pending) == old(Value(pending))
  {
    a[i] := text;
  }

  // ---- Isolation over any sequence of calls ----

  /**
   What callers do: whole calls, the leader's half of a shared lookup, a waiter taking its result, writes, and
   scribbling.
   */
  datatype Traffic =
    | Call(name: string, ok: bool, now: int)
    | Lead(name: string, ok: bool, now: int)
    | Take(lookup: nat)
    | Change(name: string, write: Write)
    | Scribble(list: nat, index: nat, text: string)

  /** The cache and table, the results of shared lookups, and the answers given, as values. */
  datatype Ledger = Ledger(cache: Cache, table: Table, lookups: seq<GetResult>, answers: seq<GetResult>)

  /** One event on values: scribbling is nothing. */
  function Entered(ttl: int, l: Ledger, t: Traffic): Ledger {
    match t
    case Call(name, ok, now) =>
      var (c, r) := Alone(ttl, l.cache, l.table, name, ok, now);
      l.(cache := c, answers := l.answers + [r])
    case Lead(name, ok, now) =>
      l.(cache := FetchedCache(ttl, l.cache, l.table, name, ok, now),
          lookups := l.lookups + [ReadTable(l.table, name, ok)])
    case Take(k) => if k < |l.lookups| then l.(answers := l.answers + [l.lookups[k]]) else l
    case Change(name, w) =>
      var after := Committed(l.table, name, w);
      if after.None? then l
      else l.(table := after.value, cache := if ttl > 0 then Evicted(l.cache, name) else l.cache)
    case Scribble(_, _, _) => l
  }

  function EnteredAll(ttl: int, l: Ledger, ts: seq<Traffic>): Ledger
    decreases |ts|
  {
    if ts == [] then l else Entered(ttl, EnteredAll(ttl, l, ts[..|ts| - 1]), ts[|ts| - 1])
  }

  function WithoutScribbles(ts: seq<Traffic>): seq<Traffic>
    decreases |ts|
  {
    if ts == [] then []
    else
      var before := WithoutScribbles(ts[..|ts| - 1]);
      if ts[|ts| - 1].Scribble? then before else before + [ts[|ts| - 1]]
  }

  /** The ledger does not know that callers scribbled. */
  lemma {:induction false} ScribblesLeaveNoTrace(ttl: int, l: Ledger, ts: seq<Traffic>)
    ensures EnteredAll(ttl, l, ts) == EnteredAll(ttl, l, WithoutScribbles(ts))
    decreases |ts|
  {
    if ts != [] {
      var before, t := ts[..|ts| - 1], ts[|ts| - 1];
      ScribblesLeaveNoTrace(ttl, l, before);
      if !t.Scribble? {
        assert (WithoutScribbles(before) + [t])[..|WithoutScribbles(before)|] == WithoutScribbles(before);
      }
    }
  }

  /** The lists of a record a caller was given, as it may write into them. */
  function Given(r: Option<Record>): seq<array<string>> {
    if r.None? then []
    else
      (if r.value.series == null then [] else [r.value.series]) +
      (if r.value.families == null then [] else [r.value.families]) +
      (if r.value.architectures == null then [] else [r.value.architectures])
  }

  /** The results waiters will still be handed have the values they were read with. */
  ghost predicate Undelivered(c: CachedComponentStore, results: seq<Option<Record>>, lookups: seq<GetResult>)
    reads c, c.Pending
  {
    && |results| == |lookups|
    && forall k | 0 <= k < |results| ::
         && (results[k].Some? <==> lookups[k].Found?)
         && (results[k].Some? ==> Lists(results[k].value) <= c.Pending && Value(results[k].value) == lookups[k].comp)
  }

  /** The service's callers, together: what they wait for, what they were given, what they were answered. */
  class Callers {
    const cache: CachedComponentStore
    var lookups: seq<GetResult>
    var results: seq<Option<Record>>
    var given: seq<array<string>>
    var answers: seq<GetResult>

    ghost predicate Valid()
      reads this, cache, cache.Owned, cache.Pending
    {
      && cache.Valid()
      && Undelivered(cache, results, lookups)
      && forall a | a in given :: a in cache.Lent
    }

    ghost function Seen(): Ledger
      reads this, cache, cache.inner
    {
      Ledger(cache.Contents, cache.inner.table, lookups, answers)
    }

    constructor (cache: CachedComponentStore)
      requires cache.Valid()
      ensures Valid() && this.cache == cache && given == []
      ensures Seen() == Ledger(cache.Contents, cache.inner.table, [], [])
    {
      this.cache := cache;
      lookups, results, given, answers := [], [], [], [];
    }

    method Call(name: string, ok: bool, now: int)
      requires Valid()
      modifies this, cache
      ensures Valid() && Seen() == Entered(cache.ttl, old(Seen()), Traffic.Call(name, ok, now))
      ensures forall a | a in given :: a in old(given) || fresh(a)
    {
      var g, r := Ask(name, ok, now);
      Hand(g, r);
    }

    method Ask(name: string, ok: bool, now: int) returns (g: GetResult, r: Option<Record>)
      requires Valid()
      modifies cache
      ensures Valid() && cache.inner.table == old(cache.inner.table)
      ensures (cache.Contents, g) == Alone(cache.ttl, old(cache.Contents), cache.inner.table, name, ok, now)
      ensures r.Some? ==> Lists(r.value) <= cache.Lent && fresh(Lists(r.value))
    {
      g, r := cache.GetComponent(name, ok, now);
      forall k | 0 <= k < |results| && results[k].Some?
        ensures Lists(results[k].value) <= cache.Pending && Value(results[k].value) == lookups[k].comp
      {
        assert Lists(results[k].value) <= old(cache.Pending);
      }
    }

    /** Note an answer, and what the caller may write into from now on. */
    method Hand(g: GetResult, r: Option<Record>)
      requires Valid() && (r.Some? ==> Lists(r.value) <= cache.Lent)
      modifies this`answers, this`given
      ensures Valid() && Seen() == old(Seen()).(answers := old(answers) + [g])
      ensures given == old(given) + Given(r)
    {
      answers := answers + [g];
      given := given + Given(r);
    }

    method Lead(name: string, ok: bool, now: int)
      requires Valid()
      modifies this, cache
      ensures Valid() && Seen() == Entered(cache.ttl, old(Seen()), Traffic.Lead(name, ok, now)) && given == old(given)
    {
      var g, v := cache.Fetch(name, ok, now);
      lookups := lookups + [g];
      results := results + [v];
    }

    /** The answer is read off the clone that is handed out. */
    method Take(k: nat)
      requires Valid()
      modifies this, cache
      ensures Valid() && Seen() == Entered(cache.ttl, old(Seen()), Traffic.Take(k))
      ensures forall a | a in given :: a in old(given) || fresh(a)
    {
      if k >= |results| {
        return;
      }
      if results[k].Some? {
        var r := cache.Lend(results[k].value);
        Hand(Found(Value(r)), Some(r));
      } else {
        Hand(lookups[k], None);
      }
    }

    method Change(name: string, w: Write)
      requires Valid()
      modifies this, cache, cache.inner
      ensures Valid() && Seen() == Entered(cache.ttl, old(Seen()), Traffic.Change(name, w)) && given == old(given)
    {
      var _ := cache.Write(name, w);
    }

    method Scribble(j: nat, index: nat, text: string)
      requires Valid()
      modifies if j < |given| then {given[j]} else {}
      ensures Valid() && Seen() == Entered(cache.ttl, old(Seen()), Traffic.Scribble(j, index, text))
              && given == old(given)
    {
      if j < |given| && index < given[j].Length {
        given[j][index] := text;
      }
    }

    /**
     Isolation: in any sequence of calls, shared lookups, late takers and writes, with callers writing what
     they like into anything they were given at any time, the cache, the table and every answer, at the time
     it is given, are those of the ledger, which does not see the scribbling.
     */
    method Serve(ts: seq<Traffic>)
      requires Valid()
      modifies this, cache, cache.inner, given
      ensures Valid() && Seen() == EnteredAll(cache.ttl, old(Seen()), ts)
    {
      for i := 0 to |ts|
        invariant Valid() && Seen() == EnteredAll(cache.ttl, old(Seen()), ts[..i])
        invariant forall a | a in given :: a in old(given) || fresh(a)
      {
        assert ts[..i + 1][..i] == ts[..i];
        match ts[i] {
          case Call(name, ok, now) => Call(name, ok, now);
          case Lead(name, ok, now) => Lead(name, ok, now);
          case Take(k) => Take(k);
          case Change(name, w) => Change(name, w);
          case Scribble(j, index, text) =>
            assert j < |given| ==> given[j] in given;
            Scribble(j, index, text);
        }
      }
      assert ts[..|ts|] == ts;
    }
  }
}
