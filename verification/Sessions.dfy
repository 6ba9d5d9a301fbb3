/**
 Sessions under concurrent requests (auth/internal/middleware/session.go, auth/internal/store/sessions.go).
 Each store call, each clock reading and each handler's end is a step of its own, so requests, logouts,
 operator updates and forced logouts interleave freely. Times are nanoseconds.
 */
module Sessions {
  import opened Wrappers
  import opened Operators

  const SECOND := 1_000_000_000
  const HOUR := 3600 * SECOND

  /** SessionAbsoluteLifetime and SessionIdleLifetime. */
  const ABSOLUTE := 24 * HOUR
  const IDLE := 8 * HOUR

  /** What a time is after a trip through the RFC 3339 text column: whole seconds. */
  function Trunc(t: int): int {
    t - t % SECOND
  }

  datatype Row = Row(operator: string, created: int, lastSeen: int, expires: int)

  type Rows = map<string, Row>

  function NewRow(operator: string, now: int): Row {
    Row(operator, Trunc(now), Trunc(now), Trunc(now + ABSOLUTE))
  }

  // ---- Single statements ----

  /** INSERT; the id is a primary key and the operator a foreign key. */
  function Inserted(rows: Rows, operators: Table, sid: string, operator: string, now: int): Option<Rows> {
    if sid in rows || operator !in operators then None else Some(rows[sid := NewRow(operator, now)])
  }

  /** SELECT with the join on operators. */
  function Selected(rows: Rows, operators: Table, sid: string): Option<Row> {
    if sid in rows && rows[sid].operator in operators then Some(rows[sid]) else None
  }

  function Touched(rows: Rows, sid: string, at: int): Rows {
    if sid in rows && rows[sid].lastSeen < Trunc(at) then rows[sid := rows[sid].(lastSeen := Trunc(at))] else rows
  }

  /** DELETE by operator; an empty id is refused. */
  function Swept(rows: Rows, operator: string): Rows {
    if operator == "" then rows else map sid | sid in rows && rows[sid].operator != operator :: rows[sid]
  }

  /** The middleware's verdict on the row it read, at the moment it reads the clock. */
  predicate InTime(row: Row, now: int) {
    now <= row.expires && now - row.lastSeen <= IDLE
  }

  /** Only an explicit 2xx or 3xx slides the idle window. */
  predicate Accepts(explicitlySet: bool, status: int) {
    explicitlySet && 200 <= status < 400
  }

  /** A role change to read-only or a disable logs the operator out. */
  predicate ForcesLogout(before: Operator, after: Operator) {
    (before.role.Admin? && after.role.ReadOnly?) || (before.status.Active? && after.status.Disabled?)
  }

  // ---- The machine ----

  datatype Refusal = Expired(at: int) | NoOperator | Inactive

  /** How far a request has come; `at` is its one clock reading. */
  datatype Phase =
    | LookedUp
    | Timed(at: int)
    | Running(role: Role, at: int)
    | Accepted(at: int)
    | Dropping(why: Refusal)

  datatype Request = Request(sid: string, row: Row, phase: Phase)

  datatype State = State(
    now: int,
    operators: Table,
    rows: Rows,
    requests: map<nat, Request>,
    sweeps: map<nat, string>)           // operator PATCH calls that still owe a forced logout

  datatype Action =
    | Tick(elapsed: nat)
    | Create(sid: string, operator: string)
    | LookUp(request: nat, sid: string)
    | Decide(request: nat)
    | CheckOperator(request: nat)
    | Finish(request: nat, explicitlySet: bool, status: int)
    | Touch(request: nat)
    | Drop(request: nat)
    | Abandon(request: nat)             // a store error, or a client that went away
    | Logout(sid: string)
    | ChangeOperator(call: nat, operator: string, newRole: Option<Role>, newStatus: Option<Status>)
    | Sweep(call: nat)
    | AddOperator(operator: string, email: string, role: Role)

  predicate At(st: State, r: nat, phase: Phase) {
    r in st.requests && st.requests[r].phase == phase
  }

  function Moved(st: State, r: nat, phase: Phase): State
    requires r in st.requests
  {
    st.(requests := st.requests[r := st.requests[r].(phase := phase)])
  }

  function Ended(st: State, r: nat): State {
    st.(requests := st.requests - {r})
  }

  function AfterDecision(row: Row, now: int): Phase {
    if InTime(row, now) then Timed(now) else Dropping(Expired(now))
  }

  function AfterOperator(operators: Table, operator: string, at: int): Phase {
    if operator !in operators then Dropping(NoOperator)
    else if !operators[operator].status.Active? then Dropping(Inactive)
    else Running(operators[operator].role, at)
  }

  function Patched(st: State, call: nat, operator: string, newRole: Option<Role>, newStatus: Option<Status>): State {
    match Updated(st.operators, operator, newRole, newStatus)
    case Err(_) => st
    case Ok(after) =>
      st.(operators := after,
          sweeps := if ForcesLogout(st.operators[operator], after[operator]) then st.sweeps[call := operator]
              else st.sweeps)
  }

  function Step(st: State, a: Action): State {
    match a
    case Tick(d) => st.(now := st.now + d)
    case Create(sid, op) => st.(rows := Inserted(st.rows, st.operators, sid, op, st.now).GetOr(st.rows))
    case LookUp(r, sid) =>
      var row := Selected(st.rows, st.operators, sid);
      if r in st.requests || row.None? then st
      else st.(requests := st.requests[r := Request(sid, row.value, LookedUp)])
    case Decide(r) =>
      if At(st, r, LookedUp) then Moved(st, r, AfterDecision(st.requests[r].row, st.now)) else st
    case CheckOperator(r) =>
      if r in st.requests && st.requests[r].phase.Timed?
      then Moved(st, r, AfterOperator(st.operators, st.requests[r].row.operator, st.requests[r].phase.at))
      else st
    case Finish(r, explicitlySet, status) =>
      if r in st.requests && st.requests[r].phase.Running?
      then if Accepts(explicitlySet, status) then Moved(st, r, Accepted(st.requests[r].phase.at)) else Ended(st, r)
      else st
    case Touch(r) =>
      if r in st.requests && st.requests[r].phase.Accepted?
      then Ended(st, r).(rows := Touched(st.rows, st.requests[r].sid, st.requests[r].phase.at))
      else st
    case Drop(r) =>
      if r in st.requests && st.requests[r].phase.Dropping?
      then Ended(st, r).(rows := st.rows - {st.requests[r].sid})
      else st
    case Abandon(r) => Ended(st, r)
    case Logout(sid) => st.(rows := st.rows - {sid})
    case ChangeOperator(call, op, newRole, newStatus) => Patched(st, call, op, newRole, newStatus)
    case Sweep(call) =>
      if call in st.sweeps
      then st.(rows := Swept(st.rows, st.sweeps[call]), sweeps := st.sweeps - {call})
      else st
    case AddOperator(id, email, role) => st.(operators := Tried(st.operators,
        Allowlisted(st.operators, id, email, role)))
  }

  function Run(st: State, acts: seq<Action>): State
    decreases |acts|
  {
    if acts == [] then st else Step(Run(st, acts[..|acts| - 1]), acts[|acts| - 1])
  }

  lemma {:induction false} RunsConcatenate(st: State, a: seq<Action>, b: seq<Action>)
    ensures Run(st, a + b) == Run(Run(st, a), b)
    decreases |b|
  {
    if b == [] {
      assert a + b == a;
    } else {
      RunsConcatenate(st, a, b[..|b| - 1]);
      assert (a + b)[..|a + b| - 1] == a + b[..|b| - 1];
    }
  }

  /** A deployment before its first login. */
  ghost predicate Unused(st: State) {
    st.rows == map[] && st.requests == map[] && st.sweeps == map[]
  }

  // ---- A session's row is a function of its history ----

  /** When a session was last created, for whom, and its latest accepted request since. */
  datatype Use = Use(operator: string, created: int, lastUsed: int)

  ghost function AfterUse(st: State, h: Option<Use>, a: Action, sid: string): Option<Use> {
    match a
    case Create(s, op) =>
      if s == sid && sid !in st.rows && op in st.operators then Some(Use(op, st.now, st.now)) else h
    case Touch(r) =>
      if r in st.requests && st.requests[r].phase.Accepted? && st.requests[r].sid == sid && h.Some?
      then Some(h.value.(lastUsed := Max(h.value.lastUsed, st.requests[r].phase.at)))
      else h
    case _ => h
  }

  ghost function History(st: State, acts: seq<Action>, sid: string): Option<Use>
    decreases |acts|
  {
    if acts == [] then None
    else
      var before := acts[..|acts| - 1];
      AfterUse(Run(st, before), History(st, before, sid), acts[|acts| - 1], sid)
  }

  function Max(a: int, b: int): int {
    if a <= b then b else a
  }

  ghost function RowOf(h: Use): Row {
    Row(h.operator, Trunc(h.created), Trunc(h.lastUsed), Trunc(h.created + ABSOLUTE))
  }

  lemma TruncIsMonotone(a: int, b: int)
    ensures a <= b ==> Trunc(a) <= Trunc(b)
    ensures Trunc(a) <= a < Trunc(a) + SECOND
  {
  }

  ghost predicate RowSound(st: State, h: Option<Use>, sid: string) {
    && (sid in st.rows ==> h.Some? && st.rows[sid] == RowOf(h.value))
    && (h.Some? ==> h.value.created <= h.value.lastUsed <= st.now)
  }

  ghost predicate ClockSound(st: State) {
    forall r | r in st.requests ::
      match st.requests[r].phase
      case Timed(at) => at <= st.now
      case Running(_, at) => at <= st.now
      case Accepted(at) => at <= st.now
      case _ => true
  }

  lemma StepKeepsRow(st: State, h: Option<Use>, a: Action, sid: string)
    requires RowSound(st, h, sid) && ClockSound(st)
    ensures RowSound(Step(st, a), AfterUse(st, h, a, sid), sid)
  {
    if a.Touch? && AfterUse(st, h, a, sid) != h {
      var at := st.requests[a.request].phase.at;
      TruncIsMonotone(at, h.value.lastUsed);
      TruncIsMonotone(h.value.lastUsed, at);
    }
  }

  lemma StepKeepsClock(st: State, a: Action)
    requires ClockSound(st)
    ensures ClockSound(Step(st, a)) && st.now <= Step(st, a).now
  {
  }

  lemma {:induction false} RunKeepsClock(st: State, acts: seq<Action>)
    requires ClockSound(st)
    ensures ClockSound(Run(st, acts)) && st.now <= Run(st, acts).now
    decreases |acts|
  {
    if acts != [] {
      RunKeepsClock(st, acts[..|acts| - 1]);
      StepKeepsClock(Run(st, acts[..|acts| - 1]), acts[|acts| - 1]);
    }
  }

  /** In every run a stored row is its creation and latest accepted request, cut to whole seconds. */
  lemma {:induction false} RowIsItsHistory(st: State, acts: seq<Action>, sid: string)
    requires Unused(st)
    ensures RowSound(Run(st, acts), History(st, acts, sid), sid)
    decreases |acts|
  {
    if acts != [] {
      var before := acts[..|acts| - 1];
      RowIsItsHistory(st, before, sid);
      RunKeepsClock(st, before);
      StepKeepsRow(Run(st, before), History(st, before, sid), acts[|acts| - 1], sid);
    }
  }

  // ---- What a request was shown ----

  /** The moment up to which a request's row can be no newer: its clock reading once it has one. */
  ghost function Until(phase: Phase, now: int): int {
    match phase
    case LookedUp => now
    case Timed(at) => at
    case Running(_, at) => at
    case Accepted(at) => at
    case Dropping(why) => if why.Expired? then why.at else now
  }

  /** The row is what the session's history was after the first n steps. */
  ghost predicate ShownAfter(st: State, acts: seq<Action>, n: nat, sid: string, row: Row, until: int) {
    && n <= |acts|
    && var h := History(st, acts[..n], sid);
       h.Some? && row == RowOf(h.value) && h.value.lastUsed <= until
  }

  /** The verdict fits the row. */
  ghost predicate VerdictSound(q: Request) {
    match q.phase
    case Timed(at) => InTime(q.row, at)
    case Running(_, at) => InTime(q.row, at)
    case Accepted(at) => InTime(q.row, at)
    case Dropping(Expired(at)) => !InTime(q.row, at)
    case _ => true
  }

  ghost predicate RequestSound(st: State, acts: seq<Action>, q: Request, now: int) {
    && VerdictSound(q)
    && exists n: nat :: ShownAfter(st, acts, n, q.sid, q.row, Until(q.phase, now))
  }

  lemma StillShown(st: State, acts: seq<Action>, a: Action, q: Request, now: int, q': Request, now': int)
    requires RequestSound(st, acts, q, now) && q'.sid == q.sid && q'.row == q.row
    requires Until(q.phase, now) <= Until(q'.phase, now') && VerdictSound(q')
    ensures RequestSound(st, acts + [a], q', now')
  {
    var n: nat :| ShownAfter(st, acts, n, q.sid, q.row, Until(q.phase, now));
    assert (acts + [a])[..n] == acts[..n];
    assert ShownAfter(st, acts + [a], n, q'.sid, q'.row, Until(q'.phase, now'));
  }

  lemma LookUpIsShown(st: State, acts: seq<Action>, a: Action, sid: string)
    requires Unused(st) && sid in Run(st, acts).rows
    ensures RequestSound(st, acts + [a], Request(sid, Run(st, acts).rows[sid], LookedUp), Run(st, acts).now)
  {
    RowIsItsHistory(st, acts, sid);
    assert (acts + [a])[..|acts|] == acts;
    var q := Request(sid, Run(st, acts).rows[sid], LookedUp);
    assert ShownAfter(st, acts + [a], |acts|, q.sid, q.row, Until(q.phase, Run(st, acts).now));
  }

  lemma OnlyLookUpShows(st: State, a: Action, r: nat)
    requires r in Step(st, a).requests
    ensures var q := Step(st, a).requests[r];
            if r in st.requests then q.sid == st.requests[r].sid && q.row == st.requests[r].row
            else q.sid in st.rows && q == Request(q.sid, st.rows[q.sid], LookedUp) && Step(st, a).now == st.now
  {
  }

  lemma StepKeepsRequest(st: State, a: Action, r: nat)
    requires ClockSound(st) && r in st.requests && r in Step(st, a).requests && VerdictSound(st.requests[r])
    ensures var q, q' := st.requests[r], Step(st, a).requests[r];
            && q'.sid == q.sid && q'.row == q.row && VerdictSound(q')
            && Until(q.phase, st.now) <= Until(q'.phase, Step(st, a).now)
  {
    if !Moves(a, r) {
      OthersDoNotMove(st, a, r);
    }
  }

  predicate Moves(a: Action, r: nat) {
    (a.Decide? || a.CheckOperator? || a.Finish?) && a.request == r
  }

  lemma OthersDoNotMove(st: State, a: Action, r: nat)
    requires !Moves(a, r) && r in st.requests && r in Step(st, a).requests
    ensures Step(st, a).requests[r] == st.requests[r] && st.now <= Step(st, a).now
  {
  }

  lemma {:induction false} RequestsAreSound(st: State, acts: seq<Action>, r: nat)
    requires Unused(st) && r in Run(st, acts).requests
    ensures RequestSound(st, acts, Run(st, acts).requests[r], Run(st, acts).now)
    decreases |acts|
  {
    var before, a := acts[..|acts| - 1], acts[|acts| - 1];
    assert acts == before + [a];
    var end := Run(st, before);
    OnlyLookUpShows(end, a, r);
    if r in end.requests {
      RequestsAreSound(st, before, r);
      RunKeepsClock(st, before);
      StepKeepsRequest(end, a, r);
      StillShown(st, before, a, end.requests[r], end.now, Step(end, a).requests[r], Step(end, a).now);
    } else {
      LookUpIsShown(st, before, a, Step(end, a).requests[r].sid);
    }
  }

  /**
   Every admitted request, in whatever order requests finish: at most 24 hours after its session was
   created, and at most 8 hours after the creation or an accepted request of that session.
   */
  lemma AdmittedInTime(st: State, acts: seq<Action>, r: nat)
    returns (n: nat, h: Use)
    requires Unused(st) && r in Run(st, acts).requests
    requires var phase := Run(st, acts).requests[r].phase; phase.Running? || phase.Accepted?
    ensures var q := Run(st, acts).requests[r];
            && n <= |acts| && History(st, acts[..n], q.sid) == Some(h)
            && q.row.operator == h.operator
            && h.lastUsed <= q.phase.at <= h.lastUsed + IDLE
            && q.phase.at <= h.created + ABSOLUTE
  {
    RequestsAreSound(st, acts, r);
    var q := Run(st, acts).requests[r];
    n :| ShownAfter(st, acts, n, q.sid, q.row, q.phase.at);
    h := History(st, acts[..n], q.sid).value;
    TruncIsMonotone(h.lastUsed, h.lastUsed);
    TruncIsMonotone(h.created + ABSOLUTE, h.created + ABSOLUTE);
  }

  /** And none is refused for its age more than a second before one of the limits. */
  lemma RefusedOnlyWhenDue(st: State, acts: seq<Action>, r: nat, at: int)
    returns (n: nat, h: Use)
    requires Unused(st) && At(Run(st, acts), r, Dropping(Expired(at)))
    ensures var q := Run(st, acts).requests[r];
            && n <= |acts| && History(st, acts[..n], q.sid) == Some(h) && q.row.operator == h.operator
            && h.lastUsed <= at
            && (at > h.created + ABSOLUTE - SECOND || at > h.lastUsed + IDLE - SECOND)
  {
    RequestsAreSound(st, acts, r);
    var q := Run(st, acts).requests[r];
    n :| ShownAfter(st, acts, n, q.sid, q.row, at);
    h := History(st, acts[..n], q.sid).value;
    TruncIsMonotone(h.lastUsed, h.lastUsed);
    TruncIsMonotone(h.created + ABSOLUTE, h.created + ABSOLUTE);
  }

  // ---- Deleted rows stay deleted ----

  ghost predicate Advanced(a: Row, b: Row) {
    b.operator == a.operator && b.created == a.created && b.expires == a.expires && a.lastSeen <= b.lastSeen
  }

  ghost predicate Creates(acts: seq<Action>, sid: string) {
    exists a | a in acts :: a.Create? && a.sid == sid
  }

  lemma StepKeepsSurvivor(st: State, a: Action, sid: string)
    requires !(a.Create? && a.sid == sid) && sid in Step(st, a).rows
    ensures sid in st.rows && Advanced(st.rows[sid], Step(st, a).rows[sid])
  {
  }

  /**
   Unless it is created anew, a session that has a row has had one all along, and its last_seen_at only moved
   forward.
   */
  lemma {:induction false} SurvivorsWereThere(st: State, acts: seq<Action>, sid: string)
    requires !Creates(acts, sid) && sid in Run(st, acts).rows
    ensures sid in st.rows && Advanced(st.rows[sid], Run(st, acts).rows[sid])
    decreases |acts|
  {
    if acts != [] {
      var before, a := acts[..|acts| - 1], acts[|acts| - 1];
      assert a in acts && forall x | x in before :: x in acts;
      StepKeepsSurvivor(Run(st, before), a, sid);
      SurvivorsWereThere(st, before, sid);
    }
  }

  ghost predicate Holds(st: State, sid: string, operator: string) {
    sid in st.rows && st.rows[sid].operator == operator
  }

  lemma OnlyCreateAdds(st: State, a: Action, sid: string, operator: string)
    requires Holds(Step(st, a), sid, operator)
    ensures Holds(st, sid, operator) || a == Create(sid, operator)
  {
  }

  /** The same for the sessions of one operator: with none at the start, one that is there later was created since. */
  lemma {:induction false} NewSessionsAreCreated(st: State, acts: seq<Action>, sid: string, operator: string)
    requires !Holds(st, sid, operator) && Holds(Run(st, acts), sid, operator)
    ensures Create(sid, operator) in acts
    decreases |acts|
  {
    var before, a := acts[..|acts| - 1], acts[|acts| - 1];
    OnlyCreateAdds(Run(st, before), a, sid, operator);
    if Holds(Run(st, before), sid, operator) {
      NewSessionsAreCreated(st, before, sid, operator);
    }
  }

  /** A request shows a session of the operator only when it was in flight at the start, or the session is newer. */
  lemma {:induction false} NewRequestsShowNewSessions(st: State, acts: seq<Action>, r: nat, operator: string)
    requires forall s :: !Holds(st, s, operator)
    requires r !in st.requests && r in Run(st, acts).requests && Run(st, acts).requests[r].row.operator == operator
    ensures Create(Run(st, acts).requests[r].sid, operator) in acts
    decreases |acts|
  {
    var before, a := acts[..|acts| - 1], acts[|acts| - 1];
    OnlyLookUpShows(Run(st, before), a, r);
    if r in Run(st, before).requests {
      NewRequestsShowNewSessions(st, before, r, operator);
    } else {
      NewSessionsAreCreated(st, before, Run(st, acts).requests[r].sid, operator);
    }
  }

  /**
   After a forced logout, whatever follows, even after re-enabling: a request for that operator that was
   not already in flight belongs to a session created after it.
   */
  lemma SweepIsFinal(st: State, before: seq<Action>, call: nat, after: seq<Action>, r: nat)
    requires call in Run(st, before).sweeps && Run(st, before).sweeps[call] != ""
    requires r !in Run(st, before).requests
    requires var end := Run(st, before + [Sweep(call)] + after);
             r in end.requests && end.requests[r].row.operator == Run(st, before).sweeps[call]
    ensures var end := Run(st, before + [Sweep(call)] + after);
            Create(end.requests[r].sid, Run(st, before).sweeps[call]) in after
  {
    var swept := before + [Sweep(call)];
    assert swept[..|swept| - 1] == before;
    RunsConcatenate(st, swept, after);
    NewRequestsShowNewSessions(Run(st, swept), after, r, Run(st, before).sweeps[call]);
  }

  lemma RunOfTwo(st: State, a: Action, b: Action)
    ensures Run(st, [a, b]) == Step(Step(st, a), b)
  {
    assert [a, b][..1] == [a];
    assert Run(st, [a]) == Step(Run(st, [a][..0]), a);
    assert Run(st, [a, b]) == Step(Run(st, [a, b][..1]), b);
  }

  // ---- Which requests still get through ----

  /** A request of the operator has been admitted and its handler is still running. */
  ghost predicate IsRunning(st: State, r: nat, operator: string) {
    r in st.requests && st.requests[r].row.operator == operator && st.requests[r].phase.Running?
  }

  /**
   Without their sessions being created anew, a request of the operator that was not running is admitted in this
   run.
   */
  ghost predicate LetsThrough(st: State, acts: seq<Action>, r: nat, operator: string) {
    && IsRunning(Run(st, acts), r, operator) && !IsRunning(st, r, operator)
    && Create(Run(st, acts).requests[r].sid, operator) !in acts
  }

  /** A request that can still be admitted: it has passed the time check, or would pass it now. */
  predicate Undecided(q: Request, now: int) {
    q.phase.Timed? || (q.phase.LookedUp? && InTime(q.row, now))
  }

  /** Neither running nor still to be admitted. */
  predicate Hopeless(q: Request, now: int) {
    !q.phase.Running? && !Undecided(q, now)
  }

  lemma StepKeepsHopeless(st: State, a: Action, r: nat)
    requires r in st.requests && Hopeless(st.requests[r], st.now) && r in Step(st, a).requests
    ensures Hopeless(Step(st, a).requests[r], Step(st, a).now)
  {
  }

  /**
   With no session of the operator at the start, a request of theirs on an old session was there all along, and
   no more hopeful.
   */
  lemma {:induction false} OldRequestsWereThere(st: State, acts: seq<Action>, r: nat, operator: string)
    requires forall s :: !Holds(st, s, operator)
    requires r in Run(st, acts).requests && Run(st, acts).requests[r].row.operator == operator
    requires Create(Run(st, acts).requests[r].sid, operator) !in acts
    ensures r in st.requests && st.requests[r].row.operator == operator
    ensures Hopeless(st.requests[r], st.now) ==> Hopeless(Run(st, acts).requests[r], Run(st, acts).now)
    decreases |acts|
  {
    if acts != [] {
      var before, a := acts[..|acts| - 1], acts[|acts| - 1];
      assert forall x | x in before :: x in acts;
      OnlyLookUpShows(Run(st, before), a, r);
      if r in Run(st, before).requests {
        OldRequestsWereThere(st, before, r, operator);
        if Hopeless(st.requests[r], st.now) {
          StepKeepsHopeless(Run(st, before), a, r);
        }
      } else {
        NewSessionsAreCreated(st, before, Run(st, acts).requests[r].sid, operator);
      }
    }
  }

  /** Decide, re-enable the operator if need be, check the operator. */
  function AdmittingSteps(r: nat, operator: string): seq<Action> {
    [Decide(r), ChangeOperator(0, operator, None, Some(Active))] + [CheckOperator(r)]
  }

  lemma EnablingSucceeds(t: Table, operator: string)
    requires operator in t
    ensures Updated(t, operator, None, Some(Active)) == Ok(t[operator := t[operator].(status := Active)])
  {
  }

  lemma UndecidedIsAdmitted(st: State, r: nat, operator: string)
    requires operator in st.operators && r in st.requests
    requires st.requests[r].row.operator == operator && Undecided(st.requests[r], st.now)
    ensures LetsThrough(st, AdmittingSteps(r, operator), r, operator)
  {
    var enable := ChangeOperator(0, operator, None, Some(Active));
    RunOfTwo(st, Decide(r), enable);
    EnablingSucceeds(st.operators, operator);
    var timed := Run(st, [Decide(r), enable]);
    assert r in timed.requests && timed.requests[r].phase.Timed? && timed.requests[r].row == st.requests[r].row;
    RunsConcatenate(st, [Decide(r), enable], [CheckOperator(r)]);
    RunOfOne(timed, CheckOperator(r));
  }

  lemma RunOfOne(st: State, a: Action)
    ensures Run(st, [a]) == Step(st, a)
  {
    assert Run(st, [a]) == Step(Run(st, [a][..0]), a);
  }

  /**
   Exactly what outlives a forced logout: from any state with no session of the operator left, some run
   admits a request on one of their old sessions if and only if such a request has passed its time check,
   or has read its row and would pass it now.
   */
  lemma SweepLetsThroughIff(st: State, operator: string)
    requires operator in st.operators && forall s :: !Holds(st, s, operator)
    ensures (exists acts: seq<Action>, r: nat :: LetsThrough(st, acts, r, operator)) <==>
            exists r: nat | r in st.requests :: st.requests[r].row.operator == operator
                && Undecided(st.requests[r], st.now)
  {
    if acts: seq<Action>, r: nat :| LetsThrough(st, acts, r, operator) {
      OldRequestsWereThere(st, acts, r, operator);
      assert Undecided(st.requests[r], st.now);
    }
    if r: nat :| r in st.requests && st.requests[r].row.operator == operator && Undecided(st.requests[r], st.now) {
      UndecidedIsAdmitted(st, r, operator);
    }
  }

  /**
   The limit of that: a request that has read its row before the forced logout is still admitted after
   it, with the role the operator has by then, and its session stays gone.
   */
  lemma InFlightOutlivesTheSweep(st: State, r: nat, sid: string, call: nat, operator: string)
    requires r !in st.requests && operator != "" && operator in st.operators
    requires ActiveAdmin(st.operators[operator]) && |ActiveAdmins(st.operators)| > 1
    requires sid in st.rows && st.rows[sid].operator == operator && InTime(st.rows[sid], st.now)
    ensures var seen := Run(st, [LookUp(r, sid), Decide(r)]);
            var swept := Run(seen, [ChangeOperator(call, operator, Some(ReadOnly), None), Sweep(call)]);
            && sid !in swept.rows
            && At(Step(swept, CheckOperator(r)), r, Running(ReadOnly, st.now))
  {
    RunOfTwo(st, LookUp(r, sid), Decide(r));
    var seen := Run(st, [LookUp(r, sid), Decide(r)]);
    assert seen == st.(requests := st.requests[r := Request(sid, st.rows[sid], Timed(st.now))]);
    RunOfTwo(seen, ChangeOperator(call, operator, Some(ReadOnly), None), Sweep(call));
    DemotionSweeps(seen, call, operator);
  }

  lemma DemotionSweeps(st: State, call: nat, operator: string)
    requires operator != "" && operator in st.operators
    requires ActiveAdmin(st.operators[operator]) && |ActiveAdmins(st.operators)| > 1
    ensures var demoted := st.operators[operator := st.operators[operator].(role := ReadOnly)];
            Step(Step(st, ChangeOperator(call, operator, Some(ReadOnly), None)), Sweep(call)) ==
            st.(operators := demoted, rows := Swept(st.rows, operator), sweeps := st.sweeps - {call})
  {
    assert (st.sweeps[call := operator]) - {call} == st.sweeps - {call};
  }

  ghost predicate IsDisabled(st: State, operator: string) {
    operator in st.operators && st.operators[operator].status.Disabled?
  }

  lemma OnlyActiveOperatorsStart(st: State, a: Action, r: nat, operator: string)
    requires IsDisabled(st, operator) && IsRunning(Step(st, a), r, operator)
    ensures IsRunning(st, r, operator) && st.requests[r] == Step(st, a).requests[r]
  {
  }

  /**
   While the operator stays disabled no request of theirs is admitted, in flight or not: what runs was running
   before.
   */
  lemma {:induction false} DisabledAdmitsNothing(st: State, acts: seq<Action>, r: nat, operator: string)
    requires forall k | 0 <= k < |acts| :: IsDisabled(Run(st, acts[..k]), operator)
    requires IsRunning(Run(st, acts), r, operator)
    ensures IsRunning(st, r, operator) && st.requests[r] == Run(st, acts).requests[r]
    decreases |acts|
  {
    if acts != [] {
      var n := |acts| - 1;
      var before := acts[..n];
      assert IsDisabled(Run(st, acts[..n]), operator);
      forall k | 0 <= k < n ensures IsDisabled(Run(st, before[..k]), operator) {
        assert before[..k] == acts[..k];
      }
      OnlyActiveOperatorsStart(Run(st, before), acts[n], r, operator);
      DisabledAdmitsNothing(st, before, r, operator);
    }
  }

  /** A request refused because its operator is disabled takes its session with it. */
  lemma DisabledIsDropped(st: State, r: nat)
    requires r in st.requests && st.requests[r].phase.Timed? && IsDisabled(st, st.requests[r].row.operator)
    ensures At(Step(st, CheckOperator(r)), r, Dropping(Inactive))
    ensures st.requests[r].sid !in Step(Step(st, CheckOperator(r)), Drop(r)).rows
  {
  }

  /**
   A session that a late callback inserts for a disabled operator, and that is not used before, is admitted
   once they are enabled again.
   */
  lemma LateSessionGoesLive(st: State, sid: string, r: nat, call: nat, operator: string)
    requires operator in st.operators && st.operators[operator].status.Disabled?
    requires sid !in st.rows && r !in st.requests
    ensures var inserted := Step(st, Create(sid, operator));
            var enabled := Step(inserted, ChangeOperator(call, operator, None, Some(Active)));
            var end := Run(Run(enabled, [LookUp(r, sid), Decide(r)]), [CheckOperator(r)]);
            Holds(inserted, sid, operator) && IsRunning(end, r, operator)
  {
    var inserted := Step(st, Create(sid, operator));
    EnablingSucceeds(inserted.operators, operator);
    var enabled := Step(inserted, ChangeOperator(call, operator, None, Some(Active)));
    NewRowIsInTime(operator, st.now);
    RunOfTwo(enabled, LookUp(r, sid), Decide(r));
    var timed := Run(enabled, [LookUp(r, sid), Decide(r)]);
    assert r in timed.requests && timed.requests[r] == Request(sid, NewRow(operator, st.now), Timed(st.now));
    RunOfOne(timed, CheckOperator(r));
  }

  lemma NewRowIsInTime(operator: string, now: int)
    ensures InTime(NewRow(operator, now), now)
  {
    TruncIsMonotone(now, now);
    TruncIsMonotone(now + ABSOLUTE, now + ABSOLUTE);
  }
}
