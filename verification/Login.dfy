/**
 OAuth login as a protocol (auth/internal/handler/auth.go). Callbacks run concurrently, one effect on a
 store at a time; the provider's answer to Exchange is arbitrary. Random values need not be fresh.
 */
module Login {
  import opened Wrappers
  import opened OAuthState
  import Operators
  import Sessions

  datatype Failure = UnknownProvider | MissingStateOrCode | MissingHandle | StateNotFound | StateMismatch

  /** A callback request: provider from the path, state and code from the query, handle from the cookie. */
  datatype Callback = Callback(provider: string, state: string, code: string, cookie: string)

  /** Up to the exchange. Before the handle is consumed nothing is used up, except for an unknown provider. */
  function Begun(providers: set<string>, m: Entries, c: Callback, now: int): (Entries, Result<Entry, Failure>) {
    if c.provider !in providers then (if c.cookie != "" then Consumed(m, c.cookie, now).0 else m, Err(UnknownProvider))
    else if c.state == "" || c.code == "" then (m, Err(MissingStateOrCode))
    else if c.cookie == "" then (m, Err(MissingHandle))
    else
      var (after, e) := Consumed(m, c.cookie, now);
      if e.None? then (after, Err(StateNotFound))
      else if e.value.flow.state != c.state || e.value.flow.provider != c.provider then (after, Err(StateMismatch))
      else (after, Ok(e.value))
  }

  // ---- The machine ----

  /** What a callback holds between its effects. */
  datatype Stage =
    | Exchanging(entry: Entry)
    | Identified(email: string)
    | Opening(operator: string)

  datatype State = State(
    now: int,
    operators: Operators.Table,
    entries: Entries,
    calls: map<nat, Stage>,
    sessions: Sessions.Rows)

  datatype Action =
    | Tick(elapsed: nat)
    | Login(provider: string, handle: string, state: string, verifier: string)
    | ReapStates
    | Begin(call: nat, callback: Callback)
    | Exchange(call: nat, email: Option<string>)      // None for every error
    | Resolve(call: nat, operator: string)            // the row the email lookup returned, if any
    | Open(call: nat, sid: string)
    | Abandon(call: nat)                              // a store error or a client that went away
    | EndSession(sid: string)
    | ChangeOperators(table: Operators.Table)         // operator administration, whatever it does

  /** The row that the lookup by email returns; any row has at most one email, and no email two rows. */
  ghost predicate FoundBy(t: Operators.Table, email: string, operator: string) {
    operator in t && t[operator].email == email
  }

  ghost function Step(providers: set<string>, st: State, a: Action): State {
    match a
    case Tick(d) => st.(now := st.now + d)
    case Login(provider, handle, state, verifier) =>
      if provider !in providers then st
      else st.(entries := Stored(st.entries, handle, Flow(state, verifier, provider), None, st.now))
    case ReapStates => st.(entries := Reaped(st.entries, st.now))
    case Begin(call, c) =>
      if call in st.calls then st
      else
        var (after, r) := Begun(providers, st.entries, c, st.now);
        st.(entries := after, calls := if r.Ok? then st.calls[call := Exchanging(r.value)] else st.calls)
    case Exchange(call, email) =>
      if call !in st.calls || !st.calls[call].Exchanging? then st
      else if email.None? || email.value == "" then st.(calls := st.calls - {call})
      else st.(calls := st.calls[call := Identified(email.value)])
    case Resolve(call, op) =>
      if call !in st.calls || !st.calls[call].Identified? then st
      else if FoundBy(st.operators, st.calls[call].email, op) && st.operators[op].status.Active?
      then st.(calls := st.calls[call := Opening(op)])
      else st.(calls := st.calls - {call})
    case Open(call, sid) =>
      if call !in st.calls || !st.calls[call].Opening? then st
      else
        var rows := Sessions.Inserted(st.sessions, st.operators, sid, st.calls[call].operator, st.now);
        st.(calls := st.calls - {call}, sessions := rows.GetOr(st.sessions))
    case Abandon(call) => st.(calls := st.calls - {call})
    case EndSession(sid) => st.(sessions := st.sessions - {sid})
    case ChangeOperators(t) => st.(operators := t)
  }

  ghost predicate Start(st: State) {
    st.entries == map[] && st.calls == map[]
  }

  ghost function Run(providers: set<string>, st: State, acts: seq<Action>): State
    decreases |acts|
  {
    if acts == [] then st else Step(providers, Run(providers, st, acts[..|acts| - 1]), acts[|acts| - 1])
  }

  // ---- Where a session comes from ----

  /** Step k stores a flow under the handle. */
  predicate StoresUnder(providers: set<string>, a: Action, handle: string) {
    a.Login? && a.provider in providers && a.handle == handle
  }

  /** The last login that stored under the handle. */
  ghost function LastLogin(providers: set<string>, acts: seq<Action>, handle: string): (p: Option<nat>)
    ensures p.Some? ==> p.value < |acts| && StoresUnder(providers, acts[p.value], handle)
    decreases |acts|
  {
    if acts == [] then None
    else if StoresUnder(providers, acts[|acts| - 1], handle) then Some(|acts| - 1)
    else LastLogin(providers, acts[..|acts| - 1], handle)
  }

  /** The callback passes the state check in this state. */
  ghost predicate Passes(providers: set<string>, st: State, a: Action, call: nat) {
    a.Begin? && a.call == call && call !in st.calls && Begun(providers, st.entries, a.callback, st.now).1.Ok?
  }

  /** The last callback under this name that passed the state check. */
  ghost function LastPass(providers: set<string>, st: State, acts: seq<Action>, call: nat): (b: Option<nat>)
    ensures b.Some? ==> b.value < |acts| && Passes(providers, Run(providers, st, acts[..b.value]), acts[b.value], call)
    decreases |acts|
  {
    if acts == [] then None
    else
      var before := acts[..|acts| - 1];
      if Passes(providers, Run(providers, st, before), acts[|acts| - 1], call) then Some(|acts| - 1)
      else
        var b := LastPass(providers, st, before, call);
        assert b.Some? ==> before[..b.value] == acts[..b.value];
        b
  }

  /** Step k creates a session. */
  ghost predicate Opens(providers: set<string>, st: State, acts: seq<Action>, k: nat) {
    && k < |acts| && acts[k].Open?
    && var s := Run(providers, st, acts[..k]);
       && acts[k].call in s.calls && s.calls[acts[k].call].Opening?
       && Sessions.Inserted(s.sessions, s.operators, acts[k].sid, s.calls[acts[k].call].operator, s.now).Some?
  }

  /** An entry is the last login's, at the time that login read the clock. */
  ghost predicate EntryTraced(providers: set<string>, st: State, acts: seq<Action>, handle: string, e: Entry) {
    var p := LastLogin(providers, acts, handle);
    && p.Some?
    && var a := acts[p.value];
       e == Entry(Flow(a.state, a.verifier, a.provider), Run(providers, st, acts[..p.value]).now)
  }

  lemma OnlyLoginStores(providers: set<string>, st: State, a: Action, handle: string)
    requires handle in Step(providers, st, a).entries
    ensures var e := Step(providers, st, a).entries[handle];
            if StoresUnder(providers, a, handle) then e == Entry(Flow(a.state, a.verifier, a.provider), st.now)
            else handle in st.entries && e == st.entries[handle]
  {
  }

  lemma OnlyBeginStarts(providers: set<string>, st: State, a: Action, call: nat)
    requires call in Step(providers, st, a).calls
    ensures call in st.calls || Passes(providers, st, a, call)
  {
  }

  lemma {:induction false} EntriesAreTraced(providers: set<string>, st: State, acts: seq<Action>, handle: string)
    requires Start(st) && handle in Run(providers, st, acts).entries
    ensures EntryTraced(providers, st, acts, handle, Run(providers, st, acts).entries[handle])
    decreases |acts|
  {
    var before, a := acts[..|acts| - 1], acts[|acts| - 1];
    OnlyLoginStores(providers, Run(providers, st, before), a, handle);
    if !StoresUnder(providers, a, handle) {
      EntriesAreTraced(providers, st, before, handle);
      var p := LastLogin(providers, before, handle).value;
      assert before[..p] == acts[..p];
    }
  }

  /** An entry that was gone after i steps and is there again was stored since. */
  lemma {:induction false} StoredSince(providers: set<string>, st: State, acts: seq<Action>, i: nat, handle: string)
    requires i <= |acts| && handle !in Run(providers, st, acts[..i]).entries
    requires handle in Run(providers, st, acts).entries
    ensures LastLogin(providers, acts, handle).Some? && LastLogin(providers, acts, handle).value >= i
    decreases |acts|
  {
    assert i < |acts| by {
      assert acts[..|acts|] == acts;
    }
    var before, a := acts[..|acts| - 1], acts[|acts| - 1];
    assert before[..i] == acts[..i];
    OnlyLoginStores(providers, Run(providers, st, before), a, handle);
    if !StoresUnder(providers, a, handle) {
      StoredSince(providers, st, before, i, handle);
    }
  }

  /** A call that was not running after i steps and is now has passed the state check since. */
  lemma {:induction false} PassedSince(providers: set<string>, st: State, acts: seq<Action>, i: nat, call: nat)
    requires i <= |acts| && call !in Run(providers, st, acts[..i]).calls
    requires call in Run(providers, st, acts).calls
    ensures LastPass(providers, st, acts, call).Some? && LastPass(providers, st, acts, call).value >= i
    decreases |acts|
  {
    assert i < |acts| by {
      assert acts[..|acts|] == acts;
    }
    var before, a := acts[..|acts| - 1], acts[|acts| - 1];
    assert before[..i] == acts[..i];
    OnlyBeginStarts(providers, Run(providers, st, before), a, call);
    if !Passes(providers, Run(providers, st, before), a, call) {
      PassedSince(providers, st, before, i, call);
    }
  }

  /** The callback a session-creating step belongs to, and the login that callback consumed. */
  ghost function PassOf(providers: set<string>, st: State, acts: seq<Action>, k: nat): Option<nat>
    requires k < |acts| && acts[k].Open?
  {
    LastPass(providers, st, acts[..k], acts[k].call)
  }

  ghost function LoginOf(providers: set<string>, st: State, acts: seq<Action>, k: nat): Option<nat>
    requires k < |acts| && acts[k].Open?
  {
    var b := PassOf(providers, st, acts, k);
    if b.None? then None else LastLogin(providers, acts[..b.value], acts[b.value].callback.cookie)
  }

  /** Passing the state check means consuming the flow of the last login under the cookie's handle, in time. */
  lemma PassConsumesALogin(providers: set<string>, st: State, acts: seq<Action>, b: nat, call: nat)
    requires Start(st) && b < |acts| && Passes(providers, Run(providers, st, acts[..b]), acts[b], call)
    ensures var c := acts[b].callback;
            var p := LastLogin(providers, acts[..b], c.cookie);
            && p.Some? && acts[p.value] == Action.Login(c.provider, c.cookie, c.state, acts[p.value].verifier)
            && Run(providers, st, acts[..b]).now - Run(providers, st, acts[..p.value]).now <= TTL
            && c.cookie in Run(providers, st, acts[..b]).entries
            && c.cookie !in Run(providers, st, acts[..b + 1]).entries
  {
    var c := acts[b].callback;
    EntriesAreTraced(providers, st, acts[..b], c.cookie);
    var p := LastLogin(providers, acts[..b], c.cookie).value;
    assert acts[..b][..p] == acts[..p];
    assert acts[..b + 1][..b] == acts[..b];
  }

  lemma OpensHasPass(providers: set<string>, st: State, acts: seq<Action>, k: nat)
    requires Start(st) && Opens(providers, st, acts, k)
    ensures var b := PassOf(providers, st, acts, k);
            && b.Some? && b.value < k
            && Passes(providers, Run(providers, st, acts[..b.value]), acts[b.value], acts[k].call)
  {
    assert acts[..k][..0] == [];
    PassedSince(providers, st, acts[..k], 0, acts[k].call);
    var b := PassOf(providers, st, acts, k).value;
    assert acts[..k][..b] == acts[..b];
  }

  /**
   Every session goes back to a login: its callback named the same provider, brought back the state and
   the handle of that login, and consumed them at most StateTTL after it.
   */
  lemma SessionsComeFromLogins(providers: set<string>, st: State, acts: seq<Action>, k: nat)
    requires Start(st) && Opens(providers, st, acts, k)
    ensures var b, p := PassOf(providers, st, acts, k), LoginOf(providers, st, acts, k);
            && b.Some? && p.Some? && p.value < b.value < k
            && acts[b.value].Begin? && acts[b.value].call == acts[k].call
            && var c := acts[b.value].callback;
               && c.provider in providers && c.state != "" && c.code != ""
               && acts[p.value] == Action.Login(c.provider, c.cookie, c.state, acts[p.value].verifier)
               && Run(providers, st, acts[..b.value]).now - Run(providers, st, acts[..p.value]).now <= TTL
  {
    OpensHasPass(providers, st, acts, k);
    PassConsumesALogin(providers, st, acts, PassOf(providers, st, acts, k).value, acts[k].call);
  }

  lemma OpenEndsTheCall(providers: set<string>, st: State, acts: seq<Action>, k: nat)
    requires Opens(providers, st, acts, k)
    ensures acts[k].call !in Run(providers, st, acts[..k + 1]).calls
  {
    assert acts[..k + 1][..k] == acts[..k];
  }

  lemma PassesAreDistinct(providers: set<string>, st: State, acts: seq<Action>, j: nat, k: nat)
    requires Start(st) && j < k && Opens(providers, st, acts, j) && Opens(providers, st, acts, k)
    ensures PassOf(providers, st, acts, j) != PassOf(providers, st, acts, k)
  {
    OpensHasPass(providers, st, acts, j);
    OpensHasPass(providers, st, acts, k);
    if acts[j].call == acts[k].call {
      SameCallPassedSince(providers, st, acts, j, k);
    }
  }

  lemma SameCallPassedSince(providers: set<string>, st: State, acts: seq<Action>, j: nat, k: nat)
    requires j < k && Opens(providers, st, acts, j) && Opens(providers, st, acts, k) && acts[j].call == acts[k].call
    ensures var b := PassOf(providers, st, acts, k); b.Some? && b.value > j
  {
    OpenEndsTheCall(providers, st, acts, j);
    assert acts[..k][..j + 1] == acts[..j + 1];
    PassedSince(providers, st, acts[..k], j + 1, acts[k].call);
  }

  /** Two callbacks never pass on the same login. */
  lemma LoginsAreConsumedOnce(providers: set<string>, st: State, acts: seq<Action>, b: nat, x: nat, c: nat, y: nat)
    requires Start(st) && b < c < |acts|
    requires Passes(providers, Run(providers, st, acts[..b]), acts[b], x)
    requires Passes(providers, Run(providers, st, acts[..c]), acts[c], y)
    ensures LastLogin(providers, acts[..b], acts[b].callback.cookie) != LastLogin(providers, acts[..c],
            acts[c].callback.cookie)
  {
    PassConsumesALogin(providers, st, acts, b, x);
    PassConsumesALogin(providers, st, acts, c, y);
    if acts[b].callback.cookie == acts[c].callback.cookie {
      assert acts[..c][..b + 1] == acts[..b + 1];
      StoredSince(providers, st, acts[..c], b + 1, acts[c].callback.cookie);
    }
  }

  /** Different sessions go back to different logins. */
  lemma OriginsAreDistinct(providers: set<string>, st: State, acts: seq<Action>, j: nat, k: nat)
    requires Start(st) && j < k && Opens(providers, st, acts, j) && Opens(providers, st, acts, k)
    ensures LoginOf(providers, st, acts, j) != LoginOf(providers, st, acts, k)
  {
    OpensHasPass(providers, st, acts, j);
    OpensHasPass(providers, st, acts, k);
    PassesAreDistinct(providers, st, acts, j, k);
    var b, c := PassOf(providers, st, acts, j).value, PassOf(providers, st, acts, k).value;
    if b < c {
      LoginsAreConsumedOnce(providers, st, acts, b, acts[j].call, c, acts[k].call);
    } else {
      LoginsAreConsumedOnce(providers, st, acts, c, acts[k].call, b, acts[j].call);
    }
  }

  // ---- Counting ----

  function Logins(providers: set<string>, acts: seq<Action>): nat
    decreases |acts|
  {
    if acts == [] then 0
    else
      var n, a := Logins(providers, acts[..|acts| - 1]), acts[|acts| - 1];
      if a.Login? && a.provider in providers then n + 1 else n
  }

  ghost function Opened(providers: set<string>, st: State, acts: seq<Action>): nat
    decreases |acts|
  {
    if acts == [] then 0
    else
      var n := Opened(providers, st, acts[..|acts| - 1]);
      if Opens(providers, st, acts, |acts| - 1) then n + 1 else n
  }

  lemma RemovalCounts<K, V>(m: map<K, V>, k: K, m': map<K, V>)
    requires m'.Keys == m.Keys - {k}
    ensures |m'| == if k in m then |m| - 1 else |m|
  {
    assert |m'| == |m'.Keys| && |m| == |m.Keys|;
  }

  lemma FewerCount<K, V>(m: map<K, V>, m': map<K, V>)
    requires m'.Keys <= m.Keys
    ensures |m'| <= |m|
  {
    assert m.Keys == m'.Keys + (m.Keys - m'.Keys);
    assert |m'| == |m'.Keys| && |m| == |m.Keys|;
  }

  lemma AdditionCounts<K, V>(m: map<K, V>, k: K, v: V)
    ensures |m[k := v]| == if k in m then |m| else |m| + 1
  {
    if k in m {
      assert m[k := v].Keys == m.Keys;
    } else {
      assert m[k := v].Keys == m.Keys + {k};
    }
    assert |m| == |m.Keys| && |m[k := v]| == |m[k := v].Keys|;
  }

  lemma BeginMovesAtMostOne(providers: set<string>, st: State, call: nat, c: Callback)
    ensures var after := Step(providers, st, Begin(call, c));
            |after.entries| + |after.calls| <= |st.entries| + |st.calls|
  {
    if call !in st.calls {
      var (after, r) := Begun(providers, st.entries, c, st.now);
      FewerCount(st.entries, after);
      if r.Ok? {
        RemovalCounts(st.entries, c.cookie, after);
        AdditionCounts(st.calls, call, Exchanging(r.value));
      }
    }
  }

  predicate Creating(st: State, a: Action) {
    a.Open? && a.call in st.calls && st.calls[a.call].Opening?
  }

  lemma CallStepsShrink(providers: set<string>, st: State, a: Action)
    requires !a.Login? && !a.ReapStates? && !a.Begin?
    ensures var after := Step(providers, st, a);
            && after.entries == st.entries && after.calls.Keys <= st.calls.Keys
            && (Creating(st, a) ==> after.calls == st.calls - {a.call})
  {
  }

  /** A login adds at most one flow; every other step only turns a flow into a call and a call into a session. */
  lemma StepConserves(providers: set<string>, st: State, a: Action)
    ensures var after := Step(providers, st, a);
            |after.entries| + |after.calls| + (if Creating(st, a) then 1 else 0) <=
            |st.entries| + |st.calls| + (if a.Login? && a.provider in providers then 1 else 0)
  {
    var after := Step(providers, st, a);
    if a.Login? {
      AdditionCounts(st.entries, a.handle, Entry(Flow(a.state, a.verifier, a.provider), st.now));
    } else if a.ReapStates? {
      FewerCount(st.entries, after.entries);
    } else if a.Begin? {
      BeginMovesAtMostOne(providers, st, a.call, a.callback);
    } else {
      CallStepsShrink(providers, st, a);
      FewerCount(st.calls, after.calls);
      if Creating(st, a) {
        RemovalCounts(st.calls, a.call, after.calls);
      }
    }
  }

  /** Sessions, running callbacks and stored flows together never outnumber the logins. */
  lemma {:induction false} SessionsNeverOutnumberLogins(providers: set<string>, st: State, acts: seq<Action>)
    requires Start(st)
    ensures var end := Run(providers, st, acts);
            Opened(providers, st, acts) + |end.calls| + |end.entries| <= Logins(providers, acts)
    decreases |acts|
  {
    if acts != [] {
      SessionsNeverOutnumberLogins(providers, st, acts[..|acts| - 1]);
      StepConserves(providers, Run(providers, st, acts[..|acts| - 1]), acts[|acts| - 1]);
    }
  }

  // ---- Who the session is for ----

  /** After step b the provider answered the call with this email. */
  ghost predicate Vouched(acts: seq<Action>, call: nat, b: nat, y: nat, email: string) {
    b < y < |acts| && email != "" && acts[y] == Exchange(call, Some(email))
  }

  /** And then the operator row with that email was active. */
  ghost predicate Admitted(providers: set<string>, st: State, acts: seq<Action>, call: nat, operator: string, y: nat,
                           x: nat, email: string) {
    && y < x < |acts| && acts[x] == Resolve(call, operator)
    && var t := Run(providers, st, acts[..x]).operators;
       FoundBy(t, email, operator) && t[operator].status.Active?
  }

  /** What a call has behind it at each stage, since it passed the state check at step b. */
  ghost predicate Earned(providers: set<string>, st: State, acts: seq<Action>, call: nat, b: nat, stage: Stage) {
    match stage
    case Exchanging(_) => true
    case Identified(email) => exists y: nat :: Vouched(acts, call, b, y, email)
    case Opening(op) =>
      exists y: nat, x: nat, email :: Vouched(acts, call, b, y, email)
          && Admitted(providers, st, acts, call, op, y, x, email)
  }

  lemma StillEarned(providers: set<string>, st: State, acts: seq<Action>, a: Action, call: nat, b: nat, stage: Stage)
    requires Earned(providers, st, acts, call, b, stage)
    ensures Earned(providers, st, acts + [a], call, b, stage)
  {
    match stage {
      case Exchanging(_) =>
      case Identified(email) =>
        var y: nat :| Vouched(acts, call, b, y, email);
        assert Vouched(acts + [a], call, b, y, email);
      case Opening(op) =>
        var y: nat, x: nat, email :| Vouched(acts, call, b, y, email)
            && Admitted(providers, st, acts, call, op, y, x, email);
        assert (acts + [a])[..x] == acts[..x];
        assert Vouched(acts + [a], call, b, y, email) && Admitted(providers, st, acts + [a], call, op, y, x, email);
    }
  }

  lemma StageIsEarned(providers: set<string>, st: State, acts: seq<Action>, a: Action, call: nat, b: nat)
    requires call in Run(providers, st, acts).calls && b < |acts|
    requires Earned(providers, st, acts, call, b, Run(providers, st, acts).calls[call])
    requires call in Step(providers, Run(providers, st, acts), a).calls
    ensures Earned(providers, st, acts + [a], call, b, Step(providers, Run(providers, st, acts), a).calls[call])
  {
    var s := Run(providers, st, acts);
    var before, after := s.calls[call], Step(providers, s, a).calls[call];
    if after == before {
      StillEarned(providers, st, acts, a, call, b, before);
    } else if a.Exchange? {
      assert Vouched(acts + [a], call, b, |acts|, after.email);
    } else {
      var y: nat :| Vouched(acts, call, b, y, before.email);
      assert (acts + [a])[..|acts|] == acts;
      assert Vouched(acts + [a], call, b, y, before.email);
      assert Admitted(providers, st, acts + [a], call, after.operator, y, |acts|, before.email);
    }
  }

  lemma {:induction false} CallsAreEarned(providers: set<string>, st: State, acts: seq<Action>, call: nat)
    requires Start(st) && call in Run(providers, st, acts).calls
    ensures var b := LastPass(providers, st, acts, call);
            b.Some? && Earned(providers, st, acts, call, b.value, Run(providers, st, acts).calls[call])
    decreases |acts|
  {
    var before, a := acts[..|acts| - 1], acts[|acts| - 1];
    assert acts == before + [a];
    OnlyBeginStarts(providers, Run(providers, st, before), a, call);
    if !Passes(providers, Run(providers, st, before), a, call) {
      CallsAreEarned(providers, st, before, call);
      StageIsEarned(providers, st, before, a, call, LastPass(providers, st, before, call).value);
    }
  }

  /**
   A session is only ever created for an operator that was active when looked up, under the email the provider
   gave this callback.
   */
  lemma SessionsAreForVouchedOperators(providers: set<string>, st: State, acts: seq<Action>, k: nat)
    returns (b: nat, y: nat, x: nat, email: string)
    requires Start(st) && Opens(providers, st, acts, k)
    ensures PassOf(providers, st, acts, k) == Some(b) && b < y < x < k
    ensures acts[y] == Exchange(acts[k].call, Some(email)) && email != ""
    ensures var operator := Run(providers, st, acts[..k]).calls[acts[k].call].operator;
            Admitted(providers, st, acts, acts[k].call, operator, y, x, email)
  {
    var before, call := acts[..k], acts[k].call;
    CallsAreEarned(providers, st, before, call);
    b := LastPass(providers, st, before, call).value;
    var operator := Run(providers, st, before).calls[call].operator;
    y, x, email :| Vouched(before, call, b, y, email) && Admitted(providers, st, before, call, operator, y, x, email);
    assert before[..x] == acts[..x];
  }

  // ---- Callbacks that outlive a forced logout ----

  ghost predicate Disabled(t: Operators.Table, operator: string) {
    operator in t && t[operator].status.Disabled?
  }

  ghost predicate HasSession(st: State, sid: string, operator: string) {
    sid in st.sessions && st.sessions[sid].operator == operator
  }

  /** A run during which the operator stays disabled leaves a session of theirs that was not there. */
  ghost predicate OpensForDisabled(providers: set<string>, st: State, acts: seq<Action>, sid: string,
                                   operator: string) {
    && (forall k | 0 <= k <= |acts| :: Disabled(Run(providers, st, acts[..k]).operators, operator))
    && HasSession(Run(providers, st, acts), sid, operator) && !HasSession(st, sid, operator)
  }

  ghost predicate AboutToOpen(st: State, call: nat, operator: string) {
    call in st.calls && st.calls[call] == Opening(operator)
  }

  lemma OnlyOpeningCallsOpen(providers: set<string>, st: State, a: Action, sid: string, operator: string)
    requires HasSession(Step(providers, st, a), sid, operator)
    ensures HasSession(st, sid, operator) || (a.Open? && AboutToOpen(st, a.call, operator))
  {
  }

  lemma OnlyActiveOperatorsResolve(providers: set<string>, st: State, a: Action, call: nat, operator: string)
    requires Disabled(st.operators, operator) && AboutToOpen(Step(providers, st, a), call, operator)
    ensures AboutToOpen(st, call, operator)
  {
  }

  lemma {:induction false} OpeningCallsWereThere(providers: set<string>, st: State, acts: seq<Action>, call: nat,
                                                 operator: string)
    requires forall k | 0 <= k <= |acts| :: Disabled(Run(providers, st, acts[..k]).operators, operator)
    requires AboutToOpen(Run(providers, st, acts), call, operator)
    ensures AboutToOpen(st, call, operator)
    decreases |acts|
  {
    if acts != [] {
      var n := |acts| - 1;
      var before := acts[..n];
      assert Disabled(Run(providers, st, acts[..n]).operators, operator);
      OnlyActiveOperatorsResolve(providers, Run(providers, st, before), acts[n], call, operator);
      forall k | 0 <= k <= n ensures Disabled(Run(providers, st, before[..k]).operators, operator) {
        assert before[..k] == acts[..k];
      }
      OpeningCallsWereThere(providers, st, before, call, operator);
    }
  }

  lemma {:induction false} OpenedByAWaitingCall(providers: set<string>, st: State, acts: seq<Action>, sid: string,
                                                operator: string)
    returns (call: nat)
    requires OpensForDisabled(providers, st, acts, sid, operator)
    ensures AboutToOpen(st, call, operator)
    decreases |acts|
  {
    assert acts[..|acts|] == acts;
    var n := |acts| - 1;
    var before := acts[..n];
    forall k | 0 <= k <= n ensures Disabled(Run(providers, st, before[..k]).operators, operator) {
      assert before[..k] == acts[..k];
    }
    OnlyOpeningCallsOpen(providers, Run(providers, st, before), acts[n], sid, operator);
    if HasSession(Run(providers, st, before), sid, operator) {
      call := OpenedByAWaitingCall(providers, st, before, sid, operator);
    } else {
      call := acts[n].call;
      OpeningCallsWereThere(providers, st, before, call, operator);
    }
  }

  function Repeated(n: nat): string {
    if n == 0 then "" else Repeated(n - 1) + "0"
  }

  lemma {:induction false} RepeatedLength(n: nat)
    ensures |Repeated(n)| == n
  {
    if n > 0 { RepeatedLength(n - 1); }
  }

  /** A string longer than all of a finite set. */
  lemma {:induction false} LongerThanAll(taken: set<string>) returns (n: nat)
    ensures forall s | s in taken :: |s| < n
    decreases taken
  {
    n := 0;
    if taken != {} {
      var s :| s in taken;
      var m := LongerThanAll(taken - {s});
      n := if |s| < m then m else |s| + 1;
      forall x | x in taken ensures |x| < n {
        assert x == s || x in taken - {s};
      }
    }
  }

  lemma WaitingCallOpens(providers: set<string>, st: State, call: nat, sid: string, operator: string)
    requires AboutToOpen(st, call, operator) && Disabled(st.operators, operator) && sid !in st.sessions
    ensures OpensForDisabled(providers, st, [Open(call, sid)], sid, operator)
  {
    var acts := [Open(call, sid)];
    assert acts[..0] == [] && acts[..1] == acts;
    assert Run(providers, st, acts) == Step(providers, Run(providers, st, acts[..0]), acts[0]);
  }

  /**
   Exactly when a disabled operator still gets a session: some run opens one while the operator stays
   disabled if and only if a callback had already resolved them before. The insert checks that the operator
   exists and not that it is active, so a forced logout does not reach such a callback.
   */
  lemma DisabledOpensIff(providers: set<string>, st: State, operator: string)
    requires Disabled(st.operators, operator)
    ensures (exists acts: seq<Action>, sid :: OpensForDisabled(providers, st, acts, sid, operator)) <==>
            exists call: nat :: AboutToOpen(st, call, operator)
  {
    if acts: seq<Action>, sid :| OpensForDisabled(providers, st, acts, sid, operator) {
      var call := OpenedByAWaitingCall(providers, st, acts, sid, operator);
    }
    if call: nat :| AboutToOpen(st, call, operator) {
      var n := LongerThanAll(st.sessions.Keys);
      RepeatedLength(n);
      WaitingCallOpens(providers, st, call, Repeated(n), operator);
    }
  }
}
