/**
 The session store, the session middleware and the operator PATCH as objects, one call at a time, each
 against the statements and phases of the session machine.
 */
module SessionObjects {
  import opened Wrappers
  import opened Operators
  import opened Sessions

  // ---- auth/internal/store/sessions.go ----

  class SessionStore {
    const operators: OperatorStore
    var rows: Rows

    constructor (operators: OperatorStore)
      ensures this.operators == operators && rows == map[]
    {
      this.operators := operators;
      rows := map[];
    }

    method CreateSession(sid: string, operator: string, now: int) returns (r: Result<Row, Error>)
      modifies this
      ensures r.Ok? <==> Inserted(old(rows), operators.rows, sid, operator, now).Some?
      ensures rows == Inserted(old(rows), operators.rows, sid, operator, now).GetOr(old(rows))
      ensures r.Ok? ==> r.value == Row(operator, now, now, now + ABSOLUTE)
      ensures r == Err(NotFound) ==> operator !in operators.rows
    {
      if sid in rows {
        return Err(Other);
      }
      if operator !in operators.rows {
        return Err(NotFound);
      }
      rows := rows[sid := Row(operator, Trunc(now), Trunc(now), Trunc(now + ABSOLUTE))];
      return Ok(Row(operator, now, now, now + ABSOLUTE));
    }

    method GetSession(sid: string) returns (row: Option<Row>)
      ensures row == Selected(rows, operators.rows, sid)
    {
      if sid !in rows {
        return None;
      }
      var o := operators.GetOperator(rows[sid].operator);
      return if o.None? then None else Some(rows[sid]);
    }

    /** No row changed is an error only when a second look finds no row at all. */
    method TouchSession(sid: string, at: int) returns (r: Result<(), Error>)
      modifies this
      ensures rows == Touched(old(rows), sid, at)
      ensures r.Ok? <==> sid in old(rows)
    {
      var n := 0;
      if sid in rows && rows[sid].lastSeen < Trunc(at) {
        rows := rows[sid := rows[sid].(lastSeen := Trunc(at))];
        n := 1;
      }
      if n == 0 {
        return if sid in rows then Ok(()) else Err(NotFound);
      }
      return Ok(());
    }

    method DeleteSession(sid: string)
      modifies this
      ensures rows == old(rows) - {sid}
    {
      rows := rows - {sid};
    }

    method DeleteOperatorSessions(operator: string) returns (r: Result<(), Error>)
      modifies this
      ensures rows == Swept(old(rows), operator)
      ensures r.Ok? <==> operator != ""
    {
      if operator == "" {
        return Err(EmptyId);
      }
      rows := map sid | sid in rows && rows[sid].operator != operator :: rows[sid];
      return Ok(());
    }
  }

  // ---- auth/internal/middleware/session.go ----

  datatype Call = WriteHeader(code: int) | Write

  datatype Tracking = Tracking(status: int, wroteHeader: bool, explicitlySet: bool)

  function Tracked(t: Tracking, c: Call): Tracking {
    if t.wroteHeader then t
    else match c
      case WriteHeader(code) => Tracking(code, true, true)
      case Write => Tracking(200, true, t.explicitlySet)
  }

  function TrackedAll(calls: seq<Call>): Tracking
    decreases |calls|
  {
    if calls == [] then Tracking(0, false, false)
    else Tracked(TrackedAll(calls[..|calls| - 1]), calls[|calls| - 1])
  }

  /** Whatever a handler writes, its first call alone says whether the request was accepted. */
  lemma {:induction false} FirstCallDecides(calls: seq<Call>)
    ensures var t := TrackedAll(calls);
            Accepts(t.explicitlySet, t.status) <==>
            calls != [] && calls[0].WriteHeader? && 200 <= calls[0].code < 400
  {
    TrackingIsTheFirstCall(calls);
  }

  lemma {:induction false} TrackingIsTheFirstCall(calls: seq<Call>)
    ensures TrackedAll(calls) ==
            if calls == [] then Tracking(0, false, false)
            else if calls[0].WriteHeader? then Tracking(calls[0].code, true, true)
            else Tracking(200, true, false)
    decreases |calls|
  {
    if calls != [] {
      TrackingIsTheFirstCall(calls[..|calls| - 1]);
    }
  }

  class TouchTrackingWriter {
    var status: int
    var wroteHeader: bool
    var explicitlySet: bool
    ghost var calls: seq<Call>

    ghost predicate Valid()
      reads this
    {
      Tracking(status, wroteHeader, explicitlySet) == TrackedAll(calls)
    }

    constructor ()
      ensures Valid() && calls == []
    {
      status, wroteHeader, explicitlySet, calls := 0, false, false, [];
    }

    method WriteHeader(code: int)
      requires Valid()
      modifies this
      ensures Valid() && calls == old(calls) + [Call.WriteHeader(code)]
    {
      if !wroteHeader {
        status := code;
        wroteHeader := true;
        explicitlySet := true;
      }
      calls := calls + [Call.WriteHeader(code)];
    }

    method Write()
      requires Valid()
      modifies this
      ensures Valid() && calls == old(calls) + [Call.Write]
    {
      if !wroteHeader {
        status := 200;
        wroteHeader := true;
      }
      calls := calls + [Call.Write];
    }
  }

  datatype Admission =
    | NoCookie | NoSession | TooOld | NoAccount | NotActive     // 401, cookie cleared
    | LookupFailed | OperatorLookupFailed          // 500, cookie kept
    | Admitted(operator: string, role: Role, at: int)

  /**
   Whether the two reads behind the middleware succeed, and the delete of a refused session, whose failure is
   ignored.
   */
  datatype StoreIO = StoreIO(sessionOk: bool, operatorOk: bool, deleteOk: bool)

  function Refused(rows: Rows, sid: string, io: StoreIO): Rows {
    if io.deleteOk then rows - {sid} else rows
  }

  /** `later` is the operators table by the time the second read reaches it. */
  function Admitting(rows: Rows, operators: Table, later: Table, cookie: string, io: StoreIO, now: int): (Rows,
                     Admission) {
    if cookie == "" then (rows, NoCookie)
    else if !io.sessionOk then (rows, LookupFailed)
    else
      match Selected(rows, operators, cookie)
      case None => (rows, NoSession)
      case Some(row) =>
        if !InTime(row, now) then (Refused(rows, cookie, io), TooOld)
        else if !io.operatorOk then (rows, OperatorLookupFailed)
        else if row.operator !in later then (Refused(rows, cookie, io), NoAccount)
        else if !later[row.operator].status.Active? then (Refused(rows, cookie, io), NotActive)
        else (rows, Admitted(row.operator, later[row.operator].role, now))
  }

  /** The middleware before and after the handler it wraps. */
  class RequireSession {
    const sessions: SessionStore

    constructor (sessions: SessionStore)
      ensures this.sessions == sessions
    {
      this.sessions := sessions;
    }

    method Refuse(sid: string, io: StoreIO)
      modifies sessions
      ensures sessions.rows == Refused(old(sessions.rows), sid, io)
    {
      if io.deleteOk {
        sessions.DeleteSession(sid);
      }
    }

    /** The operator row is read after the session row, from a table that may have changed meanwhile. */
    method Admit(cookie: string, io: StoreIO, now: int, later: OperatorStore) returns (a: Admission, clearCookie: bool)
      modifies sessions
      ensures (sessions.rows, a) ==
              Admitting(old(sessions.rows), old(sessions.operators.rows), later.rows, cookie, io, now)
      ensures clearCookie <==> !a.Admitted? && !a.LookupFailed? && !a.OperatorLookupFailed?
    {
      if cookie == "" {
        return NoCookie, true;
      }
      if !io.sessionOk {
        return LookupFailed, false;
      }
      var row := sessions.GetSession(cookie);
      if row.None? {
        return NoSession, true;
      }
      if now > row.value.expires || now - row.value.lastSeen > IDLE {
        Refuse(cookie, io);
        return TooOld, true;
      }
      if !io.operatorOk {
        return OperatorLookupFailed, false;
      }
      var o := later.GetOperator(row.value.operator);
      if o.None? {
        Refuse(cookie, io);
        return NoAccount, true;
      }
      if o.value.status != Active {
        Refuse(cookie, io);
        return NotActive, true;
      }
      return Admitted(row.value.operator, o.value.role, now), false;
    }

    /** After the handler; a touch that fails is only logged. */
    method Finish(sid: string, at: int, tw: TouchTrackingWriter, touchOk: bool)
      requires tw.Valid()
      modifies sessions
      ensures sessions.rows ==
              if touchOk && tw.calls != [] && tw.calls[0].WriteHeader? && 200 <= tw.calls[0].code < 400
              then Touched(old(sessions.rows), sid, at) else old(sessions.rows)
    {
      FirstCallDecides(tw.calls);
      if tw.explicitlySet && 200 <= tw.status < 400 && touchOk {
        var _ := sessions.TouchSession(sid, at);
      }
    }
  }

  lemma ReadingAlone(st: State, r: nat, sid: string)
    requires r !in st.requests
    ensures var row := Selected(st.rows, st.operators, sid);
            Sessions.Run(st, [LookUp(r, sid), Decide(r)]) ==
            if row.None? then st
            else st.(requests := st.requests[r := Request(sid, row.value, AfterDecision(row.value, st.now))])
  {
    var row := Selected(st.rows, st.operators, sid);
    RunOfTwo(st, LookUp(r, sid), Decide(r));
    assert Sessions.Step(st, LookUp(r, sid)) ==
           if row.None? then st else st.(requests := st.requests[r := Request(sid, row.value, LookedUp)]);
  }

  lemma CheckingAlone(st: State, r: nat)
    requires r in st.requests && (st.requests[r].phase.Timed? || st.requests[r].phase.Dropping?)
    ensures var q := st.requests[r];
            var phase := if q.phase.Timed? then AfterOperator(st.operators, q.row.operator, q.phase.at) else q.phase;
            var end := Sessions.Run(st, [CheckOperator(r), Drop(r)]);
            && end.operators == st.operators
            && end.rows == (if phase.Dropping? then st.rows - {q.sid} else st.rows)
            && (if phase.Dropping? then r !in end.requests
                else r in end.requests && end.requests[r] == q.(phase := phase))
  {
    RunOfTwo(st, CheckOperator(r), Drop(r));
  }

  /** One request takes the steps of the machine, whatever happens to the operators between its two reads. */
  lemma AdmissionIsARun(st: State, r: nat, sid: string, later: Table)
    requires r !in st.requests && sid != ""
    ensures var (rows, a) := Admitting(st.rows, st.operators, later, sid, StoreIO(true, true, true), st.now);
            var read := Sessions.Run(st, [LookUp(r, sid), Decide(r)]);
            var end := Sessions.Run(read.(operators := later), [CheckOperator(r), Drop(r)]);
            && end.rows == rows && end.operators == later
            && (a.Admitted? <==> r in end.requests)
            && (a.Admitted? ==> At(end, r, Running(a.role, a.at)) && end.requests[r].row.operator == a.operator)
  {
    ReadingAlone(st, r, sid);
    var changed := Sessions.Run(st, [LookUp(r, sid), Decide(r)]).(operators := later);
    if Selected(st.rows, st.operators, sid).None? {
      RunOfTwo(changed, CheckOperator(r), Drop(r));
    } else {
      CheckingAlone(changed, r);
    }
  }

  // ---- auth/internal/handler/operators.go ----

  function ParseRole(s: string): Option<Role> {
    if s == "admin" then Some(Admin) else if s == "readonly" then Some(ReadOnly) else None
  }

  function ParseStatus(s: string): Option<Status> {
    if s == "active" then Some(Active) else if s == "disabled" then Some(Disabled) else None
  }

  function Parsed<T>(s: Option<string>, parse: string -> Option<T>): Option<T> {
    if s.Some? then parse(s.value) else None
  }

  predicate Malformed(role: Option<string>, status: Option<string>) {
    || (role.None? && status.None?)
    || (role.Some? && ParseRole(role.value).None?)
    || (status.Some? && ParseStatus(status.value).None?)
  }

  class OperatorsHandler {
    const operators: OperatorStore
    const sessions: SessionStore

    constructor (sessions: SessionStore)
      ensures this.sessions == sessions && operators == sessions.operators
    {
      this.sessions := sessions;
      operators := sessions.operators;
    }

    /**
     PATCH by an admin: validate, commit, then log the operator out if they lost the role or were disabled.
     The answer is the same when that last delete fails, which `sweepOk` says.
     */
    method Update(id: string, role: Option<string>, status: Option<string>, sweepOk: bool) returns (code: int)
      requires sessions.operators == operators
      modifies operators, sessions
      ensures code == 400 <==> Malformed(role, status)
      ensures Malformed(role, status) ==> operators.rows == old(operators.rows) && sessions.rows == old(sessions.rows)
      ensures !Malformed(role, status) ==>
                var u := Updated(old(operators.rows), id, Parsed(role, ParseRole), Parsed(status, ParseStatus));
                && operators.rows == Tried(old(operators.rows), u)
                && (code == 200 <==> u.Ok?) && (code == 404 <==> u == Err(NotFound))
                   && (code == 403 <==> u == Err(SelfLockout))
                && sessions.rows ==
                   if u.Ok? && sweepOk && ForcesLogout(old(operators.rows)[id], u.value[id])
                   then Swept(old(sessions.rows), id) else old(sessions.rows)
    {
      var newRole, newStatus := None, None;
      if role.Some? {
        newRole := ParseRole(role.value);
        if newRole.None? {
          return 400;
        }
      }
      if status.Some? {
        newStatus := ParseStatus(status.value);
        if newStatus.None? {
          return 400;
        }
      }
      if newRole.None? && newStatus.None? {
        return 400;
      }
      var r := operators.UpdateOperatorAtomically(id, newRole, newStatus);
      match r {
        case Err(e) =>
          return if e == NotFound then 404 else if e == SelfLockout then 403 else 500;
        case Ok((before, after)) =>
          var demoted := before.role == Admin && after.role == ReadOnly;
          var disabled := before.status == Active && after.status == Disabled;
          if (demoted || disabled) && sweepOk {
            var _ := sessions.DeleteOperatorSessions(id);
          }
          return 200;
      }
    }
  }
}
