/**
 The accounts, subscription_key and components tables and the transactions over them
 (auth/internal/store/sqlite.go, accounts.go). A transaction is one atomic step; the functions say
 what each leaves behind, the class runs them statement by statement with rollback.
 */
module Database {
  import opened Wrappers
  import opened Components

  datatype Status = Active | Suspended | Deleted

  datatype Account = Account(email: string, org: string, status: Status)

  /** `expiresAt` is stored and returned; nothing reads it to decide access. */
  datatype Key = Key(
    component: string,
    keyLabel: string,
    active: bool,
    expiresAt: Option<int>,
    usage: nat,
    account: string)

  datatype DB = DB(accounts: map<string, Account>, keys: map<string, Key>, components: Table)

  const LEGACY := "legacy"

  /** A fresh database: the schema and the seeded account that owns pre-account keys. */
  const FRESH := DB(map[LEGACY := Account("legacy@packyard.internal", "Pre-account keys", Active)], map[], map[])

  datatype Error =
    | AccountNotFound | AccountEmailExists | AccountInvalid | InvalidStatusTransition | LegacyAccountProtected
    | KeyNotFound | KeyRevoked
    | ComponentExists | ComponentNotFound
    | Other

  // ---- Accounts ----

  /** The CHECK on the email column, for an email already trimmed and lower-cased. */
  predicate ValidEmail(e: string) {
    exists i | 0 < i < |e| - 1 :: e[i] == '@'
  }

  predicate EmailTaken(db: DB, email: string, except: string) {
    exists id | id in db.accounts && id != except :: db.accounts[id].email == email
  }

  /** INSERT with a generated id; a clash of id or email is the same UNIQUE violation. */
  function AccountCreated(db: DB, id: string, email: string, org: string): Result<DB, Error> {
    if !ValidEmail(email) then Err(AccountInvalid)
    else if id in db.accounts || EmailTaken(db, email, id) then Err(AccountEmailExists)
    else Ok(db.(accounts := db.accounts[id := Account(email, org, Active)]))
  }

  /** Deleted accounts are not visible by id. */
  function GetAccount(db: DB, id: string): Result<Account, Error> {
    if id in db.accounts && !db.accounts[id].status.Deleted? then Ok(db.accounts[id])
    else Err(AccountNotFound)
  }

  datatype AccountUpdate = AccountUpdate(email: Option<string>, org: Option<string>, status: Option<Status>)

  /** No status guard in the WHERE clause: the handler keeps deleted accounts away. */
  function AccountUpdated(db: DB, id: string, u: AccountUpdate): Result<DB, Error> {
    if u.status == Some(Deleted) then Err(InvalidStatusTransition)
    else if id == LEGACY && (u.status == Some(Suspended) || u.email.Some? || u.org.Some?)
        then Err(LegacyAccountProtected)
    else if id !in db.accounts then Err(AccountNotFound)
    else
      var a := db.accounts[id];
      var b := Account(u.email.GetOr(a.email), u.org.GetOr(a.org), u.status.GetOr(a.status));
      if !ValidEmail(b.email) then Err(AccountInvalid)
      else if EmailTaken(db, b.email, id) then Err(AccountEmailExists)
      else Ok(db.(accounts := db.accounts[id := b]))
  }

  // ---- Keys ----

  function Revoked(keys: map<string, Key>, ids: set<string>): map<string, Key> {
    map k | k in keys :: if k in ids then keys[k].(active := false) else keys[k]
  }

  function ActiveKeysOfAccount(keys: map<string, Key>, id: string): set<string> {
    set k | k in keys && keys[k].account == id && keys[k].active
  }

  function ActiveKeysOfComponent(keys: map<string, Key>, name: string): set<string> {
    set k | k in keys && keys[k].component == name && keys[k].active
  }

  function AccountDeleted(db: DB, id: string): Result<DB, Error> {
    if id == LEGACY then Err(LegacyAccountProtected)
    else if GetAccount(db, id).Err? then Err(AccountNotFound)
    else Ok(db.(accounts := db.accounts[id := db.accounts[id].(status := Deleted)],
                keys := Revoked(db.keys, ActiveKeysOfAccount(db.keys, id))))
  }

  /**
   The insert checks the foreign key and nothing else: not the account's status, not the component. A key
   that is already there is a UNIQUE violation, which the account error classifier names after the email.
   */
  function KeyCreated(db: DB, key: string, account: string, component: string, keyLabel: string,
                      expiresAt: Option<int>): Result<DB, Error> {
    if key in db.keys then Err(AccountEmailExists)
    else if account !in db.accounts then Err(AccountNotFound)
    else Ok(db.(keys := db.keys[key := Key(component, keyLabel, true, expiresAt, 0, account)]))
  }

  function GetByValue(db: DB, value: string): Result<Key, Error> {
    if value !in db.keys then Err(KeyNotFound)
    else if !db.keys[value].active then Err(KeyRevoked)
    else Ok(db.keys[value])
  }

  /** The UPDATE has no active filter, so revoking twice succeeds twice. */
  function RevokedKey(db: DB, key: string): Result<DB, Error> {
    if key !in db.keys then Err(KeyNotFound)
    else Ok(db.(keys := db.keys[key := db.keys[key].(active := false)]))
  }

  function UsageIncremented(db: DB, key: string): Result<DB, Error> {
    if key !in db.keys then Err(KeyNotFound)
    else Ok(db.(keys := db.keys[key := db.keys[key].(usage := db.keys[key].usage + 1)]))
  }

  // ---- Components ----

  function ComponentCreated(db: DB, c: Component): Result<DB, Error> {
    match Created(db.components, c)
    case Some(t) => Ok(db.(components := t))
    case None => Err(if c.name in db.components then ComponentExists else Other)
  }

  function ComponentUpdated(db: DB, name: string, p: Patch): Result<DB, Error> {
    match Committed(db.components, name, Update(p))
    case Some(t) => Ok(db.(components := t))
    case None => Err(if name !in db.components then ComponentNotFound else Other)
  }

  /** The plain delete keeps the keys as they are. */
  function ComponentDeleted(db: DB, name: string): Result<DB, Error> {
    if name !in db.components then Err(ComponentNotFound)
    else Ok(db.(components := db.components - {name}))
  }

  function ComponentDeletedWithRevoke(db: DB, name: string): Result<DB, Error> {
    if name !in db.components then Err(ComponentNotFound)
    else Ok(DB(db.accounts, Revoked(db.keys, ActiveKeysOfComponent(db.keys, name)), db.components - {name}))
  }

  // ---- The store ----

  class SQLiteStore {
    var accounts: map<string, Account>
    var keys: map<string, Key>
    var components: Table

    ghost function State(): DB
      reads this
    {
      DB(accounts, keys, components)
    }

    constructor ()
      ensures State() == FRESH
    {
      accounts := map[LEGACY := Account("legacy@packyard.internal", "Pre-account keys", Active)];
      keys := map[];
      components := map[];
    }

    method Rollback(a: map<string, Account>, k: map<string, Key>, c: Table)
      modifies this
      ensures State() == DB(a, k, c)
    {
      accounts, keys, components := a, k, c;
    }

    /** UPDATE keys, then DELETE the component; no component row means the revokes are rolled back. */
    method DeleteComponentWithRevoke(name: string) returns (r: Result<nat, Error>)
      modifies this
      ensures r.Ok? <==> ComponentDeletedWithRevoke(old(State()), name).Ok?
      ensures r.Ok? ==> State() == ComponentDeletedWithRevoke(old(State()), name).value
      ensures r.Ok? ==> r.value == |ActiveKeysOfComponent(old(keys), name)|
      ensures r.Err? ==> r.error == ComponentNotFound && State() == old(State())
    {
      var a, k, c := accounts, keys, components;
      var hit := ActiveKeysOfComponent(keys, name);
      keys := Revoked(keys, hit);
      var revoked := |hit|;
      var affected := if name in components then 1 else 0;
      components := components - {name};
      if affected == 0 {
        Rollback(a, k, c);
        return Err(ComponentNotFound);
      }
      return Ok(revoked);
    }

    /** Status check, cascade revoke, soft delete, in one serializable transaction. */
    method DeleteAccountWithCascade(id: string) returns (r: Result<nat, Error>)
      modifies this
      ensures r.Ok? <==> AccountDeleted(old(State()), id).Ok?
      ensures r.Ok? ==> State() == AccountDeleted(old(State()), id).value
      ensures r.Ok? ==> r.value == |ActiveKeysOfAccount(old(keys), id)|
      ensures r.Err? ==> r.error == AccountDeleted(old(State()), id).error && State() == old(State())
    {
      if id == LEGACY {
        return Err(LegacyAccountProtected);
      }
      if id !in accounts || accounts[id].status == Deleted {
        return Err(AccountNotFound);
      }
      var hit := ActiveKeysOfAccount(keys, id);
      keys := Revoked(keys, hit);
      accounts := accounts[id := accounts[id].(status := Deleted)];
      return Ok(|hit|);
    }

    method UpdateAccount(id: string, u: AccountUpdate) returns (r: Result<Account, Error>)
      modifies this`accounts
      ensures r.Ok? <==> AccountUpdated(old(State()), id, u).Ok?
      ensures r.Ok? ==> State() == AccountUpdated(old(State()), id, u).value && GetAccountRow(id) == Some(r.value)
      ensures r.Err? ==> r.error == AccountUpdated(old(State()), id, u).error && State() == old(State())
    {
      if u.status == Some(Deleted) {
        return Err(InvalidStatusTransition);
      }
      if id == LEGACY {
        if u.status.Some? && u.status != Some(Active) {
          assert u.status.value == Suspended;
          return Err(LegacyAccountProtected);
        }
        if u.email.Some? || u.org.Some? {
          return Err(LegacyAccountProtected);
        }
      }
      if id !in accounts {
        return Err(AccountNotFound);
      }
      var row := accounts[id];
      row := row.(email := u.email.GetOr(row.email));
      row := row.(org := u.org.GetOr(row.org));
      row := row.(status := u.status.GetOr(row.status));
      if !ValidEmail(row.email) {
        return Err(AccountInvalid);
      }
      if exists other | other in accounts && other != id :: accounts[other].email == row.email {
        return Err(AccountEmailExists);
      }
      accounts := accounts[id := row];
      return Ok(row);
    }

    function GetAccountRow(id: string): Option<Account>
      reads this`accounts
    {
      if id in accounts then Some(accounts[id]) else None
    }

    method CreateKeyForAccount(key: string, account: string, component: string, keyLabel: string,
                               expiresAt: Option<int>)
      returns (r: Result<Key, Error>)
      modifies this`keys
      ensures r.Ok? <==> KeyCreated(old(State()), key, account, component, keyLabel, expiresAt).Ok?
      ensures r.Ok? ==> State() == KeyCreated(old(State()), key, account, component, keyLabel, expiresAt).value
                        && key in keys && keys[key] == r.value
      ensures r.Err? ==> r.error == KeyCreated(old(State()), key, account, component, keyLabel, expiresAt).error
                         && State() == old(State())
    {
      if key in keys {
        return Err(AccountEmailExists);
      }
      if account !in accounts {
        return Err(AccountNotFound);
      }
      var row := Key(component, keyLabel, true, expiresAt, 0, account);
      keys := keys[key := row];
      return Ok(row);
    }

    /** Read the row, apply the patch, write it back, in one transaction. */
    method UpdateComponent(name: string, p: Patch) returns (r: Result<Component, Error>)
      modifies this`components
      ensures r.Ok? <==> ComponentUpdated(old(State()), name, p).Ok?
      ensures r.Ok? ==> State() == ComponentUpdated(old(State()), name, p).value
                        && name in components && components[name] == r.value
      ensures r.Err? ==> r.error == ComponentUpdated(old(State()), name, p).error && State() == old(State())
    {
      if name !in components {
        return Err(ComponentNotFound);
      }
      var current := components[name];
      if p.visibility.Some? { current := current.(visibility := p.visibility.value); }
      if p.series.Some? { current := current.(series := p.series.value); }
      if p.families.Some? { current := current.(families := p.families.value); }
      if p.architectures.Some? { current := current.(architectures := p.architectures.value); }
      if !ValidVisibility(current.visibility) {
        return Err(Other);
      }
      components := components[name := current];
      return Ok(current);
    }

    method CreateComponent(c: Component) returns (r: Result<Component, Error>)
      modifies this`components
      ensures r.Ok? <==> ComponentCreated(old(State()), c).Ok?
      ensures r.Ok? ==> State() == ComponentCreated(old(State()), c).value && r.value.name == c.name
      ensures r.Err? ==> r.error == ComponentCreated(old(State()), c).error && State() == old(State())
    {
      var row := if c.visibility == "" then c.(visibility := "private") else c;
      if c.name in components {
        return Err(ComponentExists);
      }
      if !ValidVisibility(row.visibility) {
        return Err(Other);
      }
      components := components[c.name := row];
      return Ok(row);
    }

    method DeleteComponent(name: string) returns (r: Result<(), Error>)
      modifies this`components
      ensures r.Ok? <==> ComponentDeleted(old(State()), name).Ok?
      ensures State() == if r.Ok? then ComponentDeleted(old(State()), name).value else old(State())
    {
      if name !in components {
        return Err(ComponentNotFound);
      }
      components := components - {name};
      return Ok(());
    }

    method RevokeKey(key: string) returns (r: Result<(), Error>)
      modifies this`keys
      ensures r.Ok? <==> RevokedKey(old(State()), key).Ok?
      ensures State() == if r.Ok? then RevokedKey(old(State()), key).value else old(State())
      ensures r.Err? ==> r.error == KeyNotFound
    {
      if key !in keys {
        return Err(KeyNotFound);
      }
      keys := keys[key := keys[key].(active := false)];
      return Ok(());
    }

    method IncrementUsage(key: string) returns (r: Result<(), Error>)
      modifies this`keys
      ensures r.Ok? <==> UsageIncremented(old(State()), key).Ok?
      ensures State() == if r.Ok? then UsageIncremented(old(State()), key).value else old(State())
    {
      if key !in keys {
        return Err(KeyNotFound);
      }
      keys := keys[key := keys[key].(usage := keys[key].usage + 1)];
      return Ok(());
    }
  }
}
