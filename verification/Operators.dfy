/**
 The operators table and its guarded update (auth/internal/store/operators.go). Timestamps are whole
 seconds, as stored; emails are already canonical.
 */
module Operators {
  import opened Wrappers
  import Database

  datatype Role = Admin | ReadOnly

  datatype Status = Active | Disabled

  /** `firstSeen` is the provider of the first captured identity. */
  datatype Operator = Operator(
    email: string,
    role: Role,
    status: Status,
    lastLogin: Option<int>,
    github: Option<string>,
    microsoft: Option<string>,
    firstSeen: Option<string>)

  type Table = map<string, Operator>

  datatype Error = NotFound | Exists | Invalid | SelfLockout | UnknownProvider | EmptyId | Other

  predicate ActiveAdmin(o: Operator) {
    o.role.Admin? && o.status.Active?
  }

  function ActiveAdmins(t: Table): set<string> {
    set id | id in t && ActiveAdmin(t[id])
  }

  predicate EmailTaken(t: Table, email: string) {
    exists id | id in t :: t[id].email == email
  }

  function NewOperator(email: string, role: Role): Operator {
    Operator(email, role, Active, None, None, None, None)
  }

  /** INSERT of an active operator with a generated id. */
  function Allowlisted(t: Table, id: string, email: string, role: Role): Result<Table, Error> {
    if !Database.ValidEmail(email) then Err(Invalid)
    else if id in t || EmailTaken(t, email) then Err(Exists)
    else Ok(t[id := NewOperator(email, role)])
  }

  /** The first admin, from the environment: only into an empty table. `parses` is mail.ParseAddress. */
  function Bootstrapped(t: Table, id: string, email: string, parses: bool): Result<Table, Error> {
    if email == "" then Ok(t)
    else if !parses then Err(Invalid)
    else if t != map[] then Ok(t)
    else Allowlisted(t, id, email, Admin)
  }

  function Changed(o: Operator, role: Option<Role>, status: Option<Status>): Operator {
    o.(role := role.GetOr(o.role), status := status.GetOr(o.status))
  }

  /** The guarded update: refused when it takes the active-admin mark off a row while at most one row has it. */
  function Updated(t: Table, id: string, role: Option<Role>, status: Option<Status>): Result<Table, Error> {
    if role.None? && status.None? then Err(Invalid)
    else if id !in t then Err(NotFound)
    else
      var after := Changed(t[id], role, status);
      if ActiveAdmin(t[id]) && !ActiveAdmin(after) && |ActiveAdmins(t)| <= 1 then Err(SelfLockout)
      else Ok(t[id := after])
  }

  /** last_login_at only moves forward. */
  function LoggedIn(t: Table, id: string, at: int): Result<Table, Error> {
    if id !in t then Err(NotFound)
    else if t[id].lastLogin.Some? && at <= t[id].lastLogin.value then Ok(t)
    else Ok(t[id := t[id].(lastLogin := Some(at))])
  }

  function Coalesce<T>(first: Option<T>, later: T): Option<T> {
    if first.Some? then first else Some(later)
  }

  /** The provider's identity column and the first-seen column are written once. */
  function ProviderSeen(t: Table, id: string, provider: string, user: string): Result<Table, Error> {
    if user == "" then Ok(t)
    else if provider != "github" && provider != "microsoft" then Err(UnknownProvider)
    else if id !in t then Ok(t)
    else
      var o := t[id].(firstSeen := Coalesce(t[id].firstSeen, provider));
      Ok(t[id := if provider == "github" then o.(github := Coalesce(o.github, user))
                 else o.(microsoft := Coalesce(o.microsoft, user))])
  }

  // ---- The guard ----

  /** At most one active admin, and this is one: it is the only one. */
  lemma OnlyAdmin(t: Table, id: string)
    requires id in ActiveAdmins(t)
    ensures |ActiveAdmins(t)| <= 1 <==> ActiveAdmins(t) == {id}
  {
    assert ActiveAdmins(t) == {id} + (ActiveAdmins(t) - {id});
  }

  lemma AdminsAfter(t: Table, id: string, o: Operator)
    requires id in t
    ensures ActiveAdmins(t[id := o]) == if ActiveAdmin(o) then ActiveAdmins(t) + {id} else ActiveAdmins(t) - {id}
  {
  }

  /**
   The update is refused as a lockout exactly when applying it would take the table from some active admin to
   none.
   */
  lemma LockoutIff(t: Table, id: string, role: Option<Role>, status: Option<Status>)
    ensures Updated(t, id, role, status) == Err(SelfLockout) <==>
            && id in t && ActiveAdmins(t) != {}
            && ActiveAdmins(t[id := Changed(t[id], role, status)]) == {}
  {
    if id in t {
      AdminsAfter(t, id, Changed(t[id], role, status));
      if id in ActiveAdmins(t) {
        OnlyAdmin(t, id);
      }
    }
  }

  /** Disabling without the guard keeps an active admin exactly when another one is left. */
  lemma UnguardedDisableIsSafeIff(t: Table, id: string)
    requires id in t && ActiveAdmins(t) != {}
    ensures ActiveAdmins(t[id := t[id].(status := Disabled)]) != {} <==> ActiveAdmins(t) != {id}
  {
    AdminsAfter(t, id, t[id].(status := Disabled));
    if ActiveAdmins(t) != {id} {
      var other :| other in ActiveAdmins(t) && other != id;
      assert other in ActiveAdmins(t) - {id};
    }
  }

  // ---- Runs ----

  datatype Action =
    | Bootstrap(id: string, email: string, parses: bool)
    | Allowlist(id: string, email: string, role: Role)
    | Patch(id: string, newRole: Option<Role>, newStatus: Option<Status>)
    | Login(id: string, at: int)
    | Identity(id: string, provider: string, user: string)

  function Tried(t: Table, r: Result<Table, Error>): Table {
    if r.Ok? then r.value else t
  }

  function Step(t: Table, a: Action): Table {
    Tried(t,
          match a
          case Bootstrap(id, email, parses) => Bootstrapped(t, id, email, parses)
          case Allowlist(id, email, role) => Allowlisted(t, id, email, role)
          case Patch(id, role, status) => Updated(t, id, role, status)
          case Login(id, at) => LoggedIn(t, id, at)
          case Identity(id, provider, user) => ProviderSeen(t, id, provider, user))
  }

  function Run(t: Table, acts: seq<Action>): Table
    decreases |acts|
  {
    if acts == [] then t else Step(Run(t, acts[..|acts| - 1]), acts[|acts| - 1])
  }

  ghost predicate EmailsUnique(t: Table) {
    forall a, b | a in t && b in t && t[a].email == t[b].email :: a == b
  }

  /** A captured identity is never replaced and a login time never goes back. */
  ghost predicate RowForward(o: Operator, p: Operator) {
    && p.email == o.email
    && (o.lastLogin.Some? ==> p.lastLogin.Some? && o.lastLogin.value <= p.lastLogin.value)
    && (o.github.Some? ==> p.github == o.github)
    && (o.microsoft.Some? ==> p.microsoft == o.microsoft)
    && (o.firstSeen.Some? ==> p.firstSeen == o.firstSeen)
  }

  ghost predicate Forward(t: Table, u: Table) {
    forall id | id in t :: id in u && RowForward(t[id], u[id])
  }

  lemma StepKeepsAnAdmin(t: Table, a: Action)
    requires ActiveAdmins(t) != {}
    ensures ActiveAdmins(Step(t, a)) != {}
  {
    var some :| some in ActiveAdmins(t);
    if a.Patch? {
      LockoutIff(t, a.id, a.newRole, a.newStatus);
    } else {
      assert some in ActiveAdmins(Step(t, a));
    }
  }

  lemma InsertIsForward(t: Table, id: string, email: string, role: Role)
    requires EmailsUnique(t)
    ensures var after := Tried(t, Allowlisted(t, id, email, role)); EmailsUnique(after) && Forward(t, after)
  {
  }

  lemma RowUpdateIsForward(t: Table, id: string, o: Operator)
    requires EmailsUnique(t) && id in t && RowForward(t[id], o)
    ensures EmailsUnique(t[id := o]) && Forward(t, t[id := o])
  {
  }

  lemma StepIsForward(t: Table, a: Action)
    requires EmailsUnique(t)
    ensures EmailsUnique(Step(t, a)) && Forward(t, Step(t, a))
  {
    match a {
      case Bootstrap(id, email, _) => InsertIsForward(t, id, email, Admin);
      case Allowlist(id, email, role) => InsertIsForward(t, id, email, role);
      case _ =>
        if a.id in t {
          assert Step(t, a) == t[a.id := Step(t, a)[a.id]];
          RowUpdateIsForward(t, a.id, Step(t, a)[a.id]);
        }
    }
  }

  /** Every run keeps emails unique and takes no login time or captured identity back. */
  lemma {:induction false} RunIsForward(t: Table, acts: seq<Action>)
    requires EmailsUnique(t)
    ensures EmailsUnique(Run(t, acts)) && Forward(t, Run(t, acts))
    decreases |acts|
  {
    if acts != [] {
      RunIsForward(t, acts[..|acts| - 1]);
      StepIsForward(Run(t, acts[..|acts| - 1]), acts[|acts| - 1]);
    }
  }

  /** Once there is an active admin, every run leaves one. */
  lemma {:induction false} AdminRemains(t: Table, acts: seq<Action>)
    requires ActiveAdmins(t) != {}
    ensures ActiveAdmins(Run(t, acts)) != {}
    decreases |acts|
  {
    if acts != [] {
      AdminRemains(t, acts[..|acts| - 1]);
      StepKeepsAnAdmin(Run(t, acts[..|acts| - 1]), acts[|acts| - 1]);
    }
  }

  /** So a deployment that boots with a valid address into an empty table has an admin from then on. */
  lemma BootstrapSettlesIt(id: string, email: string, acts: seq<Action>)
    requires email != "" && Database.ValidEmail(email)
    ensures ActiveAdmins(Run(Step(map[], Bootstrap(id, email, true)), acts)) != {}
  {
    var t := Step(map[], Bootstrap(id, email, true));
    assert id in ActiveAdmins(t);
    AdminRemains(t, acts);
  }

  // ---- The store ----

  class OperatorStore {
    var rows: Table

    constructor ()
      ensures rows == map[]
    {
      rows := map[];
    }

    method GetOperator(id: string) returns (o: Option<Operator>)
      ensures o == if id in rows then Some(rows[id]) else None
    {
      if id !in rows {
        return None;
      }
      return Some(rows[id]);
    }

    method GetOperatorByEmail(email: string) returns (o: Option<(string, Operator)>)
      ensures o.None? <==> !EmailTaken(rows, email)
      ensures o.Some? ==> o.value.0 in rows && rows[o.value.0] == o.value.1 && o.value.1.email == email
    {
      if id :| id in rows && rows[id].email == email {
        return Some((id, rows[id]));
      }
      return None;
    }

    method AllowlistOperator(id: string, email: string, role: Role) returns (r: Result<Operator, Error>)
      modifies this
      ensures r.Ok? <==> Allowlisted(old(rows), id, email, role).Ok?
      ensures rows == Tried(old(rows), Allowlisted(old(rows), id, email, role))
      ensures r.Ok? ==> id in rows && rows[id] == r.value
      ensures r.Err? ==> r.error == Allowlisted(old(rows), id, email, role).error
    {
      if !Database.ValidEmail(email) {
        return Err(Invalid);
      }
      if id in rows || exists other | other in rows :: rows[other].email == email {
        return Err(Exists);
      }
      rows := rows[id := NewOperator(email, role)];
      return Ok(rows[id]);
    }

    /** Count and insert, in one serializable transaction. */
    method BootstrapOperatorFromEnv(id: string, email: string, parses: bool)
      returns (r: Result<Option<Operator>, Error>)
      modifies this
      ensures r.Ok? <==> Bootstrapped(old(rows), id, email, parses).Ok?
      ensures rows == Tried(old(rows), Bootstrapped(old(rows), id, email, parses))
      ensures r.Ok? && r.value.None? ==> rows == old(rows)
      ensures r.Ok? && r.value.Some? ==> ActiveAdmin(r.value.value) && rows == map[id := r.value.value]
    {
      if email == "" {
        return Ok(None);
      }
      if !parses {
        return Err(Invalid);
      }
      var n := |rows|;
      if n > 0 {
        return Ok(None);
      }
      assert rows == map[];
      var created := AllowlistOperator(id, email, Admin);
      match created {
        case Ok(o) => return Ok(Some(o));
        case Err(e) => return Err(e);
      }
    }

    /** Read the row, count the admins if it loses the mark, write; a return before the write is the rollback. */
    method UpdateOperatorAtomically(id: string, newRole: Option<Role>, newStatus: Option<Status>)
      returns (r: Result<(Operator, Operator), Error>)
      modifies this
      ensures r.Ok? <==> Updated(old(rows), id, newRole, newStatus).Ok?
      ensures rows == Tried(old(rows), Updated(old(rows), id, newRole, newStatus))
      ensures r.Ok? ==> id in old(rows) && r.value.0 == old(rows)[id] && id in rows && r.value.1 == rows[id]
      ensures r.Err? ==> r.error == Updated(old(rows), id, newRole, newStatus).error
    {
      if newRole.None? && newStatus.None? {
        return Err(Invalid);
      }
      if id !in rows {
        return Err(NotFound);
      }
      var before := rows[id];
      var afterRole, afterStatus := before.role, before.status;
      if newRole.Some? {
        afterRole := newRole.value;
      }
      if newStatus.Some? {
        afterStatus := newStatus.value;
      }
      var wasAdminActive := before.role == Admin && before.status == Active;
      var willBeAdminActive := afterRole == Admin && afterStatus == Active;
      if wasAdminActive && !willBeAdminActive {
        var n := |set k | k in rows && rows[k].role == Admin && rows[k].status == Active|;
        assert (set k | k in rows && rows[k].role == Admin && rows[k].status == Active) == ActiveAdmins(rows);
        if n <= 1 {
          return Err(SelfLockout);
        }
      }
      if newRole.Some? && newStatus.Some? {
        rows := rows[id := rows[id].(role := newRole.value, status := newStatus.value)];
      } else if newRole.Some? {
        rows := rows[id := rows[id].(role := newRole.value)];
      } else {
        rows := rows[id := rows[id].(status := newStatus.value)];
      }
      return Ok((before, rows[id]));
    }

    method UpdateLastLogin(id: string, at: int) returns (r: Result<(), Error>)
      modifies this
      ensures r.Ok? <==> LoggedIn(old(rows), id, at).Ok?
      ensures rows == Tried(old(rows), LoggedIn(old(rows), id, at))
    {
      if id in rows && (rows[id].lastLogin.None? || rows[id].lastLogin.value < at) {
        rows := rows[id := rows[id].(lastLogin := Some(at))];
        return Ok(());
      }
      return if id in rows then Ok(()) else Err(NotFound);
    }

    method UpdateLoginProvider(id: string, provider: string, user: string) returns (r: Result<(), Error>)
      modifies this
      ensures r.Ok? <==> ProviderSeen(old(rows), id, provider, user).Ok?
      ensures rows == Tried(old(rows), ProviderSeen(old(rows), id, provider, user))
    {
      if user == "" {
        return Ok(());
      }
      if provider != "github" && provider != "microsoft" {
        return Err(UnknownProvider);
      }
      if id in rows {
        var row := rows[id];
        if provider == "github" {
          row := row.(github := Coalesce(row.github, user));
        } else {
          row := row.(microsoft := Coalesce(row.microsoft, user));
        }
        rows := rows[id := row.(firstSeen := Coalesce(row.firstSeen, provider))];
      }
      return Ok(());
    }
  }
}
