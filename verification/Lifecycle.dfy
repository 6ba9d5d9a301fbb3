/**
 The admin handlers over accounts, keys and components, one call one step, and what every run of them
 keeps. A call refused by the role gates changes nothing and is not a step here.
 */
module Lifecycle {
  import opened Wrappers
  import opened Components
  import opened Database

  /** Requests; ids of new rows are what the generator drew. */
  datatype Request =
    | CreateAccount(newAccount: string, email: string, org: string)
    | PatchAccount(account: string, patchedEmail: Option<string>, patchedOrg: Option<string>, status: Option<string>)
    | DeleteAccount(account: string, confirm: string)
    | IssueKey(newKey: string, account: string, bodyAccount: string, component: string, keyLabel: string,
        expiresAt: Option<int>)
    | CreateKey(newKey: string, account: string, component: string, keyLabel: string, expiresAt: Option<int>)
    | DeleteKey(key: string)
    | CreateComponent(comp: Component, diskOk: bool)
    | PatchComponent(name: string, patch: Patch, diskOk: bool)
    | DeleteComponent(name: string, confirm: string)
    | CountUsage(key: string)                      // the side effect of an allowed subscriber request

  /** A new state and the HTTP status. */
  type Reply = (DB, int)

  function StatusOf(e: Error): int {
    match e
    case AccountNotFound => 404
    case AccountEmailExists => 409
    case AccountInvalid => 400
    case InvalidStatusTransition => 400
    case LegacyAccountProtected => 403
    case ComponentNotFound => 404
    case ComponentExists => 409
    case KeyNotFound => 404
    case KeyRevoked => 401
    case Other => 500
  }

  function Apply(db: DB, r: Result<DB, Error>, success: int): Reply {
    match r
    case Ok(db') => (db', success)
    case Err(e) => (db, StatusOf(e))
  }

  function ParseStatus(s: string): Option<Status> {
    if s == "active" then Some(Active) else if s == "suspended" then Some(Suspended) else None
  }

  function AccountPatched(db: DB, id: string, email: Option<string>, org: Option<string>,
                          status: Option<string>): Reply {
    if GetAccount(db, id).Err? then (db, 404)
    else if status.Some? && ParseStatus(status.value).None? then (db, 400)
    else
      var target := if status.Some? then ParseStatus(status.value) else None;
      Apply(db, AccountUpdated(db, id, AccountUpdate(email, org, target)), 200)
  }

  /** What remains of issuing a key once the account has been looked at. */
  function KeyInserted(db: DB, key: string, account: string, component: string, keyLabel: string,
                       expiresAt: Option<int>)
    : Reply
  {
    if component !in db.components then (db, 400)
    else
      match KeyCreated(db, key, account, component, keyLabel, expiresAt)
      case Ok(db') => (db', 201)
      case Err(e) => (db, if e.AccountNotFound? then 404 else 500)
  }

  function KeyIssued(db: DB, key: string, account: string, component: string, keyLabel: string, expiresAt: Option<int>)
    : Reply
  {
    if GetAccount(db, account).Err? then (db, 404)
    else if !db.accounts[account].status.Active? then (db, 409)
    else KeyInserted(db, key, account, component, keyLabel, expiresAt)
  }

  /** Insert, provision the directory tree, and on a disk failure take the row away again. */
  function ComponentProvisioned(db: DB, c: Component, diskOk: bool): Reply {
    match ComponentCreated(db, c)
    case Err(e) => (db, StatusOf(e))
    case Ok(created) =>
      if diskOk then (created, 201)
      else
        match ComponentDeleted(created, c.name)
        case Ok(rolledBack) => (rolledBack, 500)
        case Err(_) => (created, 500)
  }

  /** pathSegmentRe: 1 to 64 letters, digits, dots, underscores or dashes, starting with a letter or digit. */
  predicate PathSegment(s: string) {
    1 <= |s| <= 64 && Alphanumeric(s[0]) && forall c | c in s :: Alphanumeric(c) || c == '.' || c == '_' || c == '-'
  }

  /** unicode.IsSpace. */
  predicate Space(c: char) {
    || '\U{0009}' <= c <= '\U{000D}' || c == ' ' || c == '\U{0085}' || c == '\U{00A0}' || c == '\U{1680}'
    || '\U{2000}' <= c <= '\U{200A}' || c == '\U{2028}' || c == '\U{2029}' || c == '\U{202F}'
    || c == '\U{205F}' || c == '\U{3000}'
  }

  function TrimSpace(s: string): string
    decreases |s|
  {
    if s != "" && Space(s[0]) then TrimSpace(s[1..])
    else if s != "" && Space(s[|s| - 1]) then TrimSpace(s[..|s| - 1])
    else s
  }

  /** The component a create request asks for: its name without surrounding space. */
  function Named(c: Component): Component {
    c.(name := TrimSpace(c.name))
  }

  predicate Alphanumeric(c: char) {
    'A' <= c <= 'Z' || 'a' <= c <= 'z' || '0' <= c <= '9'
  }

  predicate PathSegments(l: seq<string>) {
    forall s | s in l :: PathSegment(s)
  }

  predicate ProvisionableComponent(c: Component) {
    && PathSegment(c.name) && PathSegments(c.series) && PathSegments(c.families) && PathSegments(c.architectures)
    && (c.visibility == "" || ValidVisibility(c.visibility))
  }

  predicate ProvisionablePatch(p: Patch) {
    && p != Patch(None, None, None, None)
    && (p.visibility.Some? ==> ValidVisibility(p.visibility.value))
    && (p.series.Some? ==> PathSegments(p.series.value))
    && (p.families.Some? ==> PathSegments(p.families.value))
    && (p.architectures.Some? ==> PathSegments(p.architectures.value))
  }

  function Handle(db: DB, r: Request): Reply {
    match r
    case CreateAccount(id, email, org) => Apply(db, AccountCreated(db, id, email, org), 201)
    case PatchAccount(id, email, org, status) => AccountPatched(db, id, email, org, status)
    case DeleteAccount(id, confirm) =>
      if GetAccount(db, id).Err? then (db, 404)
      else if confirm != id then (db, 409)
      else Apply(db, AccountDeleted(db, id), 200)
    case IssueKey(key, id, body, component, l, expires) =>
      if GetAccount(db, id).Ok? && db.accounts[id].status.Active? && body != "" && body != id then (db, 400)
      else KeyIssued(db, key, id, component, l, expires)
    case CreateKey(key, id, component, l, expires) =>
      if id == "" || id == LEGACY then (db, 400)
      else KeyIssued(db, key, id, component, l, expires)
    case DeleteKey(key) => Apply(db, RevokedKey(db, key), 204)
    case CreateComponent(c, diskOk) =>
      var named := Named(c);
      if !ProvisionableComponent(named) then (db, 400) else ComponentProvisioned(db, named, diskOk)
    case PatchComponent(name, p, diskOk) =>
      if !ProvisionablePatch(p) then (db, 400)
      else if name !in db.components then (db, 404)
      else if !diskOk then (db, 500)
      else Apply(db, ComponentUpdated(db, name, p), 200)
    case DeleteComponent(name, confirm) =>
      if name !in db.components then (db, 404)
      else if confirm != name then (db, 409)
      else Apply(db, ComponentDeletedWithRevoke(db, name), 200)
    case CountUsage(key) => Apply(db, UsageIncremented(db, key), 200)
  }

  function Run(db: DB, rs: seq<Request>): DB
    decreases |rs|
  {
    if rs == [] then db else Handle(Run(db, rs[..|rs| - 1]), rs[|rs| - 1]).0
  }

  // ---- The invariant ----

  ghost predicate KeyAlive(db: DB, k: Key) {
    && k.account in db.accounts
    && (k.active ==> k.component in db.components && !db.accounts[k.account].status.Deleted?)
  }

  ghost predicate KeysSound(db: DB) {
    && LEGACY in db.accounts && db.accounts[LEGACY].status.Active?
    && forall id | id in db.keys :: KeyAlive(db, db.keys[id])
  }

  ghost predicate Invariant(db: DB) {
    KeysSound(db) && EmailsSound(db)
  }

  /** Every account has a valid email that no other account has, deleted accounts included. */
  ghost predicate EmailsSound(db: DB) {
    forall id | id in db.accounts :: ValidEmail(db.accounts[id].email) && !EmailTaken(db, db.accounts[id].email, id)
  }

  /** What no step takes back. */
  ghost predicate Forward(before: DB, after: DB) {
    && (forall id | id in before.accounts ::
          && id in after.accounts
          && (before.accounts[id].status.Deleted? ==> after.accounts[id].status.Deleted?))
    && (forall k | k in before.keys ::
          && k in after.keys
          && after.keys[k].account == before.keys[k].account
          && after.keys[k].component == before.keys[k].component
          && (after.keys[k].active ==> before.keys[k].active))
  }

  lemma ProvisioningIsSafe(db: DB, c: Component, diskOk: bool)
    requires KeysSound(db)
    ensures var db' := ComponentProvisioned(db, c, diskOk).0;
            KeysSound(db') && Forward(db, db') && (!diskOk ==> db' == db)
  {
    var created := ComponentCreated(db, c);
    if created.Ok? && !diskOk {
      assert created.value.components - {c.name} == db.components;
    }
  }

  lemma PutKeepsEmails(db: DB, id: string, a: Account)
    requires EmailsSound(db) && ValidEmail(a.email) && !EmailTaken(db, a.email, id)
    ensures EmailsSound(db.(accounts := db.accounts[id := a]))
  {
  }

  lemma HandleKeepsEmails(db: DB, r: Request)
    requires EmailsSound(db)
    ensures EmailsSound(Handle(db, r).0)
  {
    var after := Handle(db, r).0;
    if r.CreateAccount? && after != db {
      PutKeepsEmails(db, r.newAccount, after.accounts[r.newAccount]);
    } else if (r.PatchAccount? || r.DeleteAccount?) && after != db {
      PutKeepsEmails(db, r.account, after.accounts[r.account]);
    } else {
      assert after.accounts == db.accounts;
    }
  }

  lemma HandleKeepsKeys(db: DB, r: Request)
    requires KeysSound(db)
    ensures KeysSound(Handle(db, r).0)
  {
    if r.CreateComponent? {
      ProvisioningIsSafe(db, Named(r.comp), r.diskOk);
    }
  }

  lemma PutAccountIsForward(db: DB, id: string, a: Account)
    requires id in db.accounts && db.accounts[id].status.Deleted? ==> a.status.Deleted?
    ensures Forward(db, db.(accounts := db.accounts[id := a]))
  {
  }

  lemma PutKeyIsForward(db: DB, id: string, k: Key)
    requires id in db.keys ==>
               k.account == db.keys[id].account && k.component == db.keys[id].component
                   && (k.active ==> db.keys[id].active)
    ensures Forward(db, db.(keys := db.keys[id := k]))
  {
  }

  ghost predicate PutsAccount(db: DB, id: string, after: DB) {
    id in after.accounts && after == db.(accounts := db.accounts[id := after.accounts[id]])
  }

  ghost predicate PutsKey(db: DB, id: string, after: DB) {
    id in after.keys && after == db.(keys := db.keys[id := after.keys[id]])
  }

  /** What a step puts into the accounts or the keys, when it puts one row. */
  lemma HandlePuts(db: DB, r: Request)
    ensures var after := Handle(db, r).0;
            match r
            case CreateAccount(id, _, _) =>
              after == db || (id !in db.accounts && PutsAccount(db, id, after))
            case PatchAccount(id, _, _, _) =>
              after == db || (!db.accounts[id].status.Deleted? && PutsAccount(db, id, after))
            case IssueKey(key, _, _, _, _, _) => after == db || (key !in db.keys && PutsKey(db, key, after))
            case CreateKey(key, _, _, _, _) => after == db || (key !in db.keys && PutsKey(db, key, after))
            case _ => true
  {
  }

  lemma HandleIsForward(db: DB, r: Request)
    requires KeysSound(db)
    ensures Forward(db, Handle(db, r).0)
  {
    var after := Handle(db, r).0;
    HandlePuts(db, r);
    if after != db {
      match r {
        case CreateAccount(id, _, _) => PutAccountIsForward(db, id, after.accounts[id]);
        case PatchAccount(id, _, _, _) => PutAccountIsForward(db, id, after.accounts[id]);
        case IssueKey(key, _, _, _, _, _) => PutKeyIsForward(db, key, after.keys[key]);
        case CreateKey(key, _, _, _, _) => PutKeyIsForward(db, key, after.keys[key]);
        case CreateComponent(c, diskOk) => ProvisioningIsSafe(db, Named(c), diskOk);
        case _ =>
      }
    }
  }

  lemma HandleKeeps(db: DB, r: Request)
    requires Invariant(db)
    ensures Invariant(Handle(db, r).0) && Forward(db, Handle(db, r).0)
  {
    HandleKeepsKeys(db, r);
    HandleKeepsEmails(db, r);
    HandleIsForward(db, r);
  }

  /** From a fresh database, every run keeps the invariant; from any state on, nothing is taken back. */
  lemma {:induction false} LifecycleKeeps(db: DB, rs: seq<Request>)
    requires Invariant(db)
    ensures Invariant(Run(db, rs)) && Forward(db, Run(db, rs))
    decreases |rs|
  {
    if rs != [] {
      LifecycleKeeps(db, rs[..|rs| - 1]);
      HandleKeeps(Run(db, rs[..|rs| - 1]), rs[|rs| - 1]);
    }
  }

  lemma FreshIsInvariant(rs: seq<Request>)
    ensures Invariant(Run(FRESH, rs))
  {
    assert FRESH.accounts[LEGACY].email[6] == '@';
    LifecycleKeeps(FRESH, rs);
  }

  /** Re-creating a deleted component never revives a key that was issued for the old one. */
  lemma RecreationRevivesNothing(before: DB, name: string, rs: seq<Request>, k: string)
    requires Invariant(before) && name in before.components
    requires k in before.keys && before.keys[k].component == name
    ensures var after := Run(Handle(before, DeleteComponent(name, name)).0, rs);
            k in after.keys && !after.keys[k].active
  {
    HandleKeeps(before, DeleteComponent(name, name));
    LifecycleKeeps(Handle(before, DeleteComponent(name, name)).0, rs);
  }

  /** A deleted account stays deleted, with every key it ever had revoked, whatever happens next. */
  lemma DeletionIsFinal(before: DB, id: string, rs: seq<Request>)
    requires Invariant(before) && id != LEGACY && GetAccount(before, id).Ok?
    ensures var after := Run(Handle(before, DeleteAccount(id, id)).0, rs);
            && GetAccount(after, id).Err?
            && forall k | k in after.keys && after.keys[k].account == id :: !after.keys[k].active
  {
    HandleKeeps(before, DeleteAccount(id, id));
    LifecycleKeeps(Handle(before, DeleteAccount(id, id)).0, rs);
  }

  /** Suspending an active account and reactivating it leaves the whole database as it was. */
  lemma SuspensionRoundTrip(db: DB, id: string)
    requires EmailsSound(db) && id != LEGACY && id in db.accounts && db.accounts[id].status.Active?
    ensures var (suspended, s1) := Handle(db, PatchAccount(id, None, None, Some("suspended")));
            var (back, s2) := Handle(suspended, PatchAccount(id, None, None, Some("active")));
            && s1 == s2 == 200 && suspended.keys == db.keys
            && suspended.accounts[id].status.Suspended? && back == db
  {
    var suspended := Handle(db, PatchAccount(id, None, None, Some("suspended"))).0;
    assert suspended.accounts == db.accounts[id := db.accounts[id].(status := Suspended)];
    assert !EmailTaken(suspended, suspended.accounts[id].email, id);
    assert suspended.accounts[id := db.accounts[id]] == db.accounts;
  }

  // ---- Store steps, with handlers interleaved ----

  /** The non-revoking delete that component Create rolls back with is safe exactly when no active key names it. */
  lemma PlainDeleteIsSafeIff(db: DB, name: string)
    requires Invariant(db) && name in db.components
    ensures Invariant(ComponentDeleted(db, name).value) <==> ActiveKeysOfComponent(db.keys, name) == {}
  {
    var after := ComponentDeleted(db, name).value;
    if k :| k in ActiveKeysOfComponent(db.keys, name) {
      assert !KeyAlive(after, after.keys[k]);
    } else {
      forall id | id in db.keys ensures KeyAlive(after, after.keys[id]) {
        assert id !in ActiveKeysOfComponent(db.keys, name);
        assert KeyAlive(db, db.keys[id]);
      }
    }
  }

  /** The key insert checks the foreign key only; it is safe exactly under the two checks its handler makes first. */
  lemma KeyInsertIsSafeIff(db: DB, key: string, account: string, component: string, keyLabel: string,
                           expiresAt: Option<int>)
    requires Invariant(db) && KeyCreated(db, key, account, component, keyLabel, expiresAt).Ok?
    ensures Invariant(KeyCreated(db, key, account, component, keyLabel, expiresAt).value) <==>
            component in db.components && !db.accounts[account].status.Deleted?
  {
    var after := KeyCreated(db, key, account, component, keyLabel, expiresAt).value;
    assert KeyAlive(after, after.keys[key]) <==> component in db.components && !db.accounts[account].status.Deleted?;
    forall id | id in db.keys ensures KeyAlive(after, after.keys[id]) == KeyAlive(db, db.keys[id]) || id == key {}
  }

  /**
   The bare account update has no status guard: it takes nothing back exactly when the row is not deleted or no
   status is given.
   */
  lemma AccountUpdateIsForwardIff(db: DB, id: string, u: AccountUpdate)
    requires AccountUpdated(db, id, u).Ok?
    ensures Forward(db, AccountUpdated(db, id, u).value) <==> !db.accounts[id].status.Deleted? || u.status.None?
  {
    var after := AccountUpdated(db, id, u).value;
    assert after == db.(accounts := db.accounts[id := after.accounts[id]]);
    if !db.accounts[id].status.Deleted? || u.status.None? {
      PutAccountIsForward(db, id, after.accounts[id]);
    }
  }

  /**
   So a PATCH that looked the account up before its deletion and writes after it brings the account back, with
   its keys revoked.
   */
  lemma InterleavedPatchRevivesAnAccount(db: DB, id: string)
    requires Invariant(db) && id != LEGACY && id in db.accounts && !db.accounts[id].status.Deleted?
    ensures var deleted := AccountDeleted(db, id);
            var patched := AccountUpdated(deleted.value, id, AccountUpdate(None, None, Some(Active)));
            && GetAccount(db, id).Ok? && deleted.Ok? && GetAccount(deleted.value, id).Err?
            && patched.Ok? && GetAccount(patched.value, id).Ok? && patched.value.keys == deleted.value.keys
  {
    var deleted := AccountDeleted(db, id).value;
    assert forall other | other in db.accounts :: deleted.accounts[other].email == db.accounts[other].email;
    assert !EmailTaken(db, db.accounts[id].email, id);
    assert !EmailTaken(deleted, db.accounts[id].email, id);
  }

  /**
   Why one call is one step above: when a key is issued between component Create's insert and its
   rollback, every store step succeeds and an active key is left without its component.
   */
  lemma InterleavedRollbackLeaksAKey(db: DB, c: Component, key: string, account: string)
    requires Invariant(db) && ComponentCreated(db, c).Ok?
    requires key !in db.keys && account in db.accounts && db.accounts[account].status.Active?
    ensures var created := ComponentCreated(db, c).value;
            var issued := KeyIssued(created, key, account, c.name, "", None);
            var rolledBack := ComponentDeleted(issued.0, c.name);
            issued.1 == 201 && rolledBack.Ok? && !Invariant(rolledBack.value)
  {
    var created := ComponentCreated(db, c).value;
    var issued := KeyIssued(created, key, account, c.name, "", None).0;
    assert !KeyAlive(ComponentDeleted(issued, c.name).value, issued.keys[key]);
  }
}
