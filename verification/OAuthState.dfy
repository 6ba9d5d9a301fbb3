/**
 The single-use store of OAuth flows (auth/internal/auth/state.go). Times are nanoseconds of a monotonic
 clock.
 */
module OAuthState {
  import opened Wrappers

  /** StateTTL. */
  const TTL := 15 * 60 * 1_000_000_000

  datatype Flow = Flow(state: string, verifier: string, provider: string)

  datatype Entry = Entry(flow: Flow, created: int)

  type Entries = map<string, Entry>

  /** A zero Created means now. */
  function Stored(m: Entries, handle: string, flow: Flow, created: Option<int>, now: int): Entries {
    m[handle := Entry(flow, created.GetOr(now))]
  }

  function Consumed(m: Entries, handle: string, now: int): (Entries, Option<Entry>) {
    if handle !in m then (m, None)
    else (m - {handle}, if now - m[handle].created > TTL then None else Some(m[handle]))
  }

  function Reaped(m: Entries, now: int): Entries {
    map h | h in m && m[h].created >= now - TTL :: m[h]
  }

  // ---- Runs, in the order the calls took the mutex ----

  datatype Op =
    | Put(handle: string, flow: Flow, created: Option<int>, at: int)
    | Consume(handle: string, at: int)
    | Reap(at: int)

  function Apply(m: Entries, op: Op): Entries {
    match op
    case Put(h, flow, created, at) => Stored(m, h, flow, created, at)
    case Consume(h, at) => Consumed(m, h, at).0
    case Reap(at) => Reaped(m, at)
  }

  function Run(ops: seq<Op>): Entries
    decreases |ops|
  {
    if ops == [] then map[] else Apply(Run(ops[..|ops| - 1]), ops[|ops| - 1])
  }

  /** What Consume answers after a run. */
  function AnswerAfter(ops: seq<Op>, handle: string, at: int): Option<Entry> {
    Consumed(Run(ops), handle, at).1
  }

  ghost predicate Ordered(ops: seq<Op>) {
    forall i, j | 0 <= i < j < |ops| :: ops[i].at <= ops[j].at
  }

  ghost predicate NotBefore(ops: seq<Op>, at: int) {
    ops != [] ==> ops[|ops| - 1].at <= at
  }

  /** The operation stores or consumes under the handle. */
  predicate Uses(op: Op, handle: string) {
    !op.Reap? && op.handle == handle
  }

  /** Operation p stored the entry under the handle and no later one used the handle. */
  ghost predicate Pending(ops: seq<Op>, p: nat, handle: string, e: Entry) {
    && p < |ops| && ops[p].Put? && ops[p].handle == handle
    && e == Entry(ops[p].flow, ops[p].created.GetOr(ops[p].at))
    && forall k | p < k < |ops| :: !Uses(ops[k], handle)
  }

  /** The last operation that used a handle, as far as it left something to consume. */
  ghost function Latest(ops: seq<Op>, handle: string): (p: Option<nat>)
    ensures p.Some? ==> p.value < |ops|
    decreases |ops|
  {
    if ops == [] then None
    else
      var n := |ops| - 1;
      if Uses(ops[n], handle) then (if ops[n].Put? then Some(n) else None) else Latest(ops[..n], handle)
  }

  lemma {:induction false} LatestIsPending(ops: seq<Op>, handle: string, p: nat, e: Entry)
    ensures Pending(ops, p, handle, e) <==>
            Latest(ops, handle) == Some(p) && p < |ops| && ops[p].Put?
            && e == Entry(ops[p].flow, ops[p].created.GetOr(ops[p].at))
    decreases |ops|
  {
    if ops != [] {
      var n := |ops| - 1;
      LatestIsPending(ops[..n], handle, p, e);
      if Uses(ops[n], handle) {
        assert p < n ==> !Pending(ops, p, handle, e);
      } else {
        assert Pending(ops, p, handle, e) <==> Pending(ops[..n], p, handle, e) by {
          assert forall k | p < k < n :: ops[..n][k] == ops[k];
        }
      }
    }
  }

  /** The map holds what is pending, except that an entry past its time may be gone. */
  ghost predicate Holds(ops: seq<Op>, m: Entries, handle: string, now: int) {
    match Latest(ops, handle)
    case None => handle !in m
    case Some(p) =>
      && p < |ops| && ops[p].Put?
      && var e := Entry(ops[p].flow, ops[p].created.GetOr(ops[p].at));
         if handle in m then m[handle] == e else now - e.created > TTL
  }

  lemma {:induction false} RunHoldsPending(ops: seq<Op>, handle: string, at: int)
    requires Ordered(ops) && NotBefore(ops, at)
    ensures Holds(ops, Run(ops), handle, at)
    decreases |ops|
  {
    if ops != [] {
      var n := |ops| - 1;
      RunHoldsPending(ops[..n], handle, ops[n].at);
    }
  }

  /**
   Whatever reaps ran and whenever: a handle is consumed exactly when a flow was stored under it, nothing
   used the handle since, and the flow is at most StateTTL old.
   */
  lemma ConsumedExactlyWhenPending(ops: seq<Op>, handle: string, at: int, e: Entry)
    requires Ordered(ops) && NotBefore(ops, at)
    ensures AnswerAfter(ops, handle, at) == Some(e) <==>
            at - e.created <= TTL && exists p: nat :: Pending(ops, p, handle, e)
  {
    RunHoldsPending(ops, handle, at);
    var l := Latest(ops, handle);
    if AnswerAfter(ops, handle, at) == Some(e) {
      LatestIsPending(ops, handle, l.value, e);
    }
    if p: nat :| at - e.created <= TTL && Pending(ops, p, handle, e) {
      LatestIsPending(ops, handle, p, e);
    }
  }

  // ---- The reaper ----

  function WithoutReaps(ops: seq<Op>): seq<Op>
    decreases |ops|
  {
    if ops == [] then []
    else
      var before := WithoutReaps(ops[..|ops| - 1]);
      if ops[|ops| - 1].Reap? then before else before + [ops[|ops| - 1]]
  }

  /** The answers of a run's Consume calls, in order. */
  function Answers(ops: seq<Op>): seq<Option<Entry>>
    decreases |ops|
  {
    if ops == [] then []
    else
      var before, op := ops[..|ops| - 1], ops[|ops| - 1];
      if op.Consume? then Answers(before) + [AnswerAfter(before, op.handle, op.at)] else Answers(before)
  }

  /** Two stores that differ only in entries past their time. */
  ghost predicate Alike(m: Entries, bare: Entries, now: int) {
    && (forall h | h in m :: h in bare && bare[h] == m[h])
    && (forall h | h in bare && h !in m :: now - bare[h].created > TTL)
  }

  lemma {:induction false} ErasureIsAlike(ops: seq<Op>, at: int)
    requires Ordered(ops) && NotBefore(ops, at)
    ensures Alike(Run(ops), Run(WithoutReaps(ops)), at)
    decreases |ops|
  {
    if ops != [] {
      var before, op := ops[..|ops| - 1], ops[|ops| - 1];
      ErasureIsAlike(before, op.at);
      if !op.Reap? {
        assert (WithoutReaps(before) + [op])[..|WithoutReaps(before)|] == WithoutReaps(before);
      }
    }
  }

  /** Reaping never changes what any Consume answers, compared with a store that never reaps. */
  lemma {:induction false} ReaperIsInvisible(ops: seq<Op>)
    requires Ordered(ops)
    ensures Answers(ops) == Answers(WithoutReaps(ops))
    decreases |ops|
  {
    if ops != [] {
      var before, op := ops[..|ops| - 1], ops[|ops| - 1];
      ReaperIsInvisible(before);
      ErasureIsAlike(before, op.at);
      if !op.Reap? {
        assert (WithoutReaps(before) + [op])[..|WithoutReaps(before)|] == WithoutReaps(before);
      }
    }
  }

  // ---- The object ----

  class MemStateStore {
    var entries: Entries

    constructor ()
      ensures entries == map[]
    {
      entries := map[];
    }

    method Put(handle: string, flow: Flow, created: Option<int>, now: int)
      modifies this
      ensures entries == Stored(old(entries), handle, flow, created, now)
    {
      var at := now;
      if created.Some? {
        at := created.value;
      }
      entries := entries[handle := Entry(flow, at)];
    }

    /** The entry goes before its age is looked at, so an expired handle is used up too. */
    method Consume(handle: string, now: int) returns (e: Option<Entry>)
      modifies this
      ensures (entries, e) == Consumed(old(entries), handle, now)
    {
      if handle !in entries {
        return None;
      }
      var found := entries[handle];
      entries := entries - {handle};
      if now - found.created > TTL {
        return None;
      }
      return Some(found);
    }

    method Reap(now: int)
      modifies this
      ensures entries == Reaped(old(entries), now)
    {
      var cutoff := now - TTL;
      var todo := entries.Keys;
      while todo != {}
        invariant todo <= entries.Keys <= old(entries).Keys
        invariant forall h | h in entries :: entries[h] == old(entries)[h]
        invariant forall h | h in old(entries) && h !in todo :: h in entries <==> old(entries)[h].created >= cutoff
        decreases todo
      {
        var h :| h in todo;
        todo := todo - {h};
        if entries[h].created < cutoff {
          entries := entries - {h};
        }
      }
    }
  }
}
