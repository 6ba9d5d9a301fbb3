/**
 The login endpoints as one object over the three stores (auth/internal/handler/auth.go), and the proof
 that one callback by itself takes the steps of the protocol machine.
 */
module LoginObject {
  import opened Wrappers
  import opened OAuthState
  import opened Login
  import Operators
  import Sessions
  import SessionObjects

  /** What the provider's Exchange returned. */
  datatype Exchanged = Unverified | NotOrgMember | ExchangeError | Identity(email: string, user: string)

  datatype Outcome = Refused(code: string) | LoggedIn(operator: string, sid: string)

  function CodeOf(f: Failure): string {
    match f
    case UnknownProvider => "UNKNOWN_PROVIDER"
    case _ => "INVALID_OAUTH_STATE"
  }

  function ExchangeCode(x: Exchanged): string {
    match x
    case NotOrgMember => "ORG_MEMBERSHIP_REQUIRED"
    case ExchangeError => "OAUTH_EXCHANGE_FAILED"
    case _ => "EMAIL_NOT_VERIFIED"
  }

  /** The email a session may be opened for, if any. */
  function EmailOf(x: Exchanged): Option<string> {
    if x.Identity? && x.email != "" then Some(x.email) else None
  }

  /** Only an active operator with exactly this email can be logged in. */
  ghost predicate Welcome(t: Operators.Table, email: Option<string>, operator: string) {
    email.Some? && FoundBy(t, email.value, operator) && t[operator].status.Active?
  }

  ghost predicate Welcomed(t: Operators.Table, email: Option<string>) {
    exists operator :: Welcome(t, email, operator)
  }

  ghost predicate Unlisted(t: Operators.Table, email: string) {
    !Operators.EmailTaken(t, email)
  }

  /** The row with this email is there and disabled. */
  ghost predicate NoLongerActive(t: Operators.Table, email: string) {
    exists operator :: FoundBy(t, email, operator) && t[operator].status.Disabled?
  }

  /** Which of the store calls behind a callback reach the store. */
  datatype CallbackIO = CallbackIO(lookupOk: bool, insertOk: bool, lastLoginOk: bool, providerOk: bool)

  /** The two best-effort updates after a session was created; an error in one does not stop the other. */
  function LoginRecorded(t: Operators.Table, operator: string, provider: string, user: string, at: int, io: CallbackIO)
    : Operators.Table
  {
    var seen := if io.lastLoginOk then Operators.Tried(t, Operators.LoggedIn(t, operator, at)) else t;
    if user == "" || !io.providerOk then seen
    else Operators.Tried(seen, Operators.ProviderSeen(seen, operator, provider, user))
  }

  class AuthHandler {
    const providers: set<string>
    const states: MemStateStore
    const sessions: SessionObjects.SessionStore
    const operators: Operators.OperatorStore

    ghost predicate Valid()
      reads this, sessions, operators
    {
      sessions.operators == operators && Operators.EmailsUnique(operators.rows)
    }

    constructor (providers: set<string>, states: MemStateStore, sessions: SessionObjects.SessionStore)
      requires Operators.EmailsUnique(sessions.operators.rows)
      ensures Valid() && this.providers == providers && this.states == states && this.sessions == sessions
    {
      this.providers, this.states, this.sessions, operators := providers, states, sessions, sessions.operators;
    }

    /** `drawn` is the handle, state and verifier, or None when the random source failed. */
    method Login(provider: string, drawn: Option<(string, string, string)>, now: int) returns (error: string)
      modifies states
      ensures error == "" <==> provider in providers && drawn.Some?
      ensures states.entries ==
              if error == "" then Stored(old(states.entries), drawn.value.0,
                  Flow(drawn.value.1, drawn.value.2, provider), None, now)
              else old(states.entries)
    {
      if provider !in providers {
        return "UNKNOWN_PROVIDER";
      }
      if drawn.None? {
        return "LOGIN_INIT_FAILED";
      }
      var (handle, state, verifier) := drawn.value;
      states.Put(handle, Flow(state, verifier, provider), None, now);
      return "";
    }

    /** The handle check: consume at most once, before anything else is compared. */
    method CheckState(c: Callback, now: int) returns (r: Result<Entry, Failure>)
      modifies states
      ensures (states.entries, r) == Begun(providers, old(states.entries), c, now)
    {
      if c.provider !in providers {
        if c.cookie != "" {
          var _ := states.Consume(c.cookie, now);
        }
        return Err(UnknownProvider);
      }
      if c.state == "" || c.code == "" {
        return Err(MissingStateOrCode);
      }
      if c.cookie == "" {
        return Err(MissingHandle);
      }
      var e := states.Consume(c.cookie, now);
      if e.None? {
        return Err(StateNotFound);
      }
      if e.value.flow.state != c.state || e.value.flow.provider != c.provider {
        return Err(StateMismatch);
      }
      return Ok(e.value);
    }

    /** One callback from start to end; `io` says which store calls fail. */
    method Callback(c: Callback, x: Exchanged, io: CallbackIO, sid: string, now: int) returns (r: Outcome)
      requires Valid()
      modifies states, sessions, operators
      ensures Valid()
      ensures states.entries == Begun(providers, old(states.entries), c, now).0
      ensures var begun := Begun(providers, old(states.entries), c, now).1;
              && (begun.Err? ==> r == Refused(CodeOf(begun.error)))
              && (begun.Ok? && EmailOf(x).None? ==> r == Refused(ExchangeCode(x)))
              && (begun.Ok? && EmailOf(x).Some? && !io.lookupOk ==> r == Refused("OPERATOR_LOOKUP_FAILED"))
              && (begun.Ok? && EmailOf(x).Some? && io.lookupOk && Unlisted(old(operators.rows), x.email) ==>
                    r == Refused("OPERATOR_NOT_ALLOWED"))
              && (begun.Ok? && EmailOf(x).Some? && io.lookupOk && NoLongerActive(old(operators.rows), x.email) ==>
                    r == Refused("OPERATOR_DISABLED"))
              && (begun.Ok? && io.lookupOk && (!io.insertOk || sid in old(sessions.rows))
                  && Welcomed(old(operators.rows), EmailOf(x)) ==>
                    r == Refused("SESSION_CREATE_FAILED"))
      ensures r.LoggedIn? ==>
                && Begun(providers, old(states.entries), c, now).1.Ok? && io.lookupOk && io.insertOk
                && Welcome(old(operators.rows), EmailOf(x), r.operator) && sid !in old(sessions.rows)
                && sessions.rows == old(sessions.rows)[sid := Sessions.NewRow(r.operator, now)]
                && operators.rows == LoginRecorded(old(operators.rows), r.operator, c.provider, x.user,
                   Sessions.Trunc(now), io)
      ensures r.Refused? ==>
                && operators.rows == old(operators.rows) && sessions.rows == old(sessions.rows)
                && (Begun(providers, old(states.entries), c, now).1.Err? || !io.lookupOk || !io.insertOk
                    || sid in old(sessions.rows)
                    || forall o :: !Welcome(old(operators.rows), EmailOf(x), o))
    {
      var entry := CheckState(c, now);
      if entry.Err? {
        return Refused(CodeOf(entry.error));
      }
      match x {
        case Unverified => return Refused("EMAIL_NOT_VERIFIED");
        case NotOrgMember => return Refused("ORG_MEMBERSHIP_REQUIRED");
        case ExchangeError => return Refused("OAUTH_EXCHANGE_FAILED");
        case Identity(_, _) =>
      }
      if x.email == "" {
        return Refused("EMAIL_NOT_VERIFIED");
      }
      if !io.lookupOk {
        return Refused("OPERATOR_LOOKUP_FAILED");
      }
      var op := operators.GetOperatorByEmail(x.email);
      if op.None? {
        return Refused("OPERATOR_NOT_ALLOWED");
      }
      var (id, row) := op.value;
      if row.status != Operators.Active {
        return Refused("OPERATOR_DISABLED");
      }
      if !io.insertOk {
        return Refused("SESSION_CREATE_FAILED");
      }
      var s := sessions.CreateSession(sid, id, now);
      if s.Err? {
        return Refused("SESSION_CREATE_FAILED");
      }
      if io.lastLoginOk {
        var _ := operators.UpdateLastLogin(id, Sessions.Trunc(now));
      }
      if x.user != "" && io.providerOk {
        var _ := operators.UpdateLoginProvider(id, c.provider, x.user);
      }
      return LoggedIn(id, sid);
    }

    /**
     Signing out always answers 204; the outcome is what the audit row of a signed-in operator says. `storeOk`
     is whether the delete reached the store.
     */
    method Logout(cookie: string, signedIn: bool, storeOk: bool) returns (outcome: Option<string>)
      modifies sessions
      ensures sessions.rows == if cookie != "" && storeOk then old(sessions.rows) - {cookie} else old(sessions.rows)
      ensures outcome == if !signedIn then None else Some(if cookie != "" && storeOk then "success" else "failure")
    {
      var sessionDeleted := false;
      if cookie != "" {
        if storeOk {
          sessions.DeleteSession(cookie);
          sessionDeleted := true;
        }
      }
      if !signedIn {
        return None;
      }
      return Some(if sessionDeleted then "success" else "failure");
    }
  }

  // ---- The same callback in the machine ----

  ghost function Steps(call: nat, c: Callback, email: Option<string>, operator: string, sid: string): seq<Action> {
    [Begin(call, c), Exchange(call, email), Resolve(call, operator), Open(call, sid)]
  }

  lemma RunOfFour(providers: set<string>, st: State, a: Action, b: Action, c: Action, d: Action)
    ensures Login.Run(providers, st, [a, b, c, d]) ==
            Step(providers, Step(providers, Step(providers, Step(providers, st, a), b), c), d)
  {
    assert [a][..0] == [] && [a, b][..1] == [a] && [a, b, c][..2] == [a, b] && [a, b, c, d][..3] == [a, b, c];
    assert Login.Run(providers, st, [a]) == Step(providers, Login.Run(providers, st, [a][..0]), a);
    assert Login.Run(providers, st, [a, b]) == Step(providers, Login.Run(providers, st, [a, b][..1]), b);
    assert Login.Run(providers, st, [a, b, c]) == Step(providers, Login.Run(providers, st, [a, b, c][..2]), c);
    assert Login.Run(providers, st, [a, b, c, d]) == Step(providers, Login.Run(providers, st, [a, b, c, d][..3]), d);
  }

  /** With nothing in between, the four steps consume, check and create what the method does. */
  lemma CallbackIsARun(providers: set<string>, st: State, call: nat, c: Callback, email: Option<string>,
                       operator: string, sid: string)
    requires call !in st.calls && (email.Some? ==> email.value != "")
    ensures var (entries, begun) := Begun(providers, st.entries, c, st.now);
            var creates := begun.Ok? && Welcome(st.operators, email, operator) && sid !in st.sessions;
            Login.Run(providers, st, Steps(call, c, email, operator, sid)) ==
            st.(entries := entries,
                sessions := if creates then st.sessions[sid := Sessions.NewRow(operator, st.now)] else st.sessions)
  {
    RunOfFour(providers, st, Begin(call, c), Exchange(call, email), Resolve(call, operator), Open(call, sid));
    var begun := Step(providers, st, Begin(call, c));
    if call in begun.calls {
      RestAlone(providers, st, begun, call, email, operator, sid);
    }
  }

  lemma RestAlone(providers: set<string>, st: State, begun: State, call: nat, email: Option<string>,
                  operator: string, sid: string)
    requires call !in st.calls && (email.Some? ==> email.value != "")
    requires begun.operators == st.operators && begun.sessions == st.sessions && begun.now == st.now
    requires exists e :: begun.calls == st.calls[call := Exchanging(e)]
    ensures Step(providers, Step(providers, Step(providers, begun, Exchange(call, email)), Resolve(call, operator)),
            Open(call, sid)) ==
            st.(entries := begun.entries,
                sessions := if Welcome(st.operators, email, operator) && sid !in st.sessions
                            then st.sessions[sid := Sessions.NewRow(operator, st.now)] else st.sessions)
  {
    var e :| begun.calls == st.calls[call := Exchanging(e)];
    assert begun.calls - {call} == st.calls;
    if email.Some? {
      assert begun.calls[call := Identified(email.value)] - {call} == st.calls;
      assert begun.calls[call := Identified(email.value)][call := Opening(operator)] - {call} == st.calls;
    }
  }
}
