/**
 The handlers as they run: one check, read or transaction after another against the store, answering
 with an HTTP status (auth/internal/handler/keys.go, accounts.go, components.go). Each is proved to be
 the one step of Lifecycle that carries its name.
 */
module AdminApi {
  import opened Wrappers
  import opened Components
  import opened Database
  import Lifecycle

  class Handlers {
    const store: SQLiteStore

    constructor (store: SQLiteStore)
      ensures this.store == store
    {
      this.store := store;
    }

    /** POST /api/v1/keys; a handler that was given no account store leaves the account to the foreign key. */
    method CreateKey(newKey: string, account: string, component: string, keyLabel: string, expiresAt: Option<int>,
                     wired: bool)
      returns (status: int)
      modifies store
      ensures wired ==>
                (store.State(), status) ==
                Lifecycle.Handle(old(store.State()), Lifecycle.CreateKey(newKey, account, component, keyLabel,
                    expiresAt))
      ensures !wired ==>
                (store.State(), status) ==
                if account == "" || account == LEGACY then (old(store.State()), 400)
                else Lifecycle.KeyInserted(old(store.State()), newKey, account, component, keyLabel, expiresAt)
    {
      if account == "" {
        return 400;
      }
      if account == LEGACY {
        return 400;
      }
      if wired {
        status := Issue(newKey, account, component, keyLabel, expiresAt);
      } else {
        status := Insert(newKey, account, component, keyLabel, expiresAt);
      }
    }

    /** POST /api/v1/accounts/{id}/keys: the path's account is authoritative. */
    method IssueKey(newKey: string, account: string, bodyAccount: string, component: string, keyLabel: string,
                    expiresAt: Option<int>)
      returns (status: int)
      modifies store
      ensures (store.State(), status) ==
              Lifecycle.Handle(old(store.State()), Lifecycle.IssueKey(newKey, account, bodyAccount, component,
                  keyLabel, expiresAt))
    {
      if account !in store.accounts || store.accounts[account].status == Deleted {
        return 404;
      }
      if store.accounts[account].status != Active {
        return 409;
      }
      if bodyAccount != "" && bodyAccount != account {
        return 400;
      }
      status := Issue(newKey, account, component, keyLabel, expiresAt);
    }

    method Issue(newKey: string, account: string, component: string, keyLabel: string, expiresAt: Option<int>)
      returns (status: int)
      modifies store
      ensures (store.State(), status) ==
              Lifecycle.KeyIssued(old(store.State()), newKey, account, component, keyLabel, expiresAt)
    {
      if account !in store.accounts || store.accounts[account].status == Deleted {
        return 404;
      }
      if store.accounts[account].status != Active {
        return 409;
      }
      status := Insert(newKey, account, component, keyLabel, expiresAt);
    }

    method Insert(newKey: string, account: string, component: string, keyLabel: string, expiresAt: Option<int>)
      returns (status: int)
      modifies store
      ensures (store.State(), status) ==
              Lifecycle.KeyInserted(old(store.State()), newKey, account, component, keyLabel, expiresAt)
    {
      if component !in store.components {
        return 400;
      }
      var r := store.CreateKeyForAccount(newKey, account, component, keyLabel, expiresAt);
      match r {
        case Ok(_) => return 201;
        case Err(e) => return if e == AccountNotFound then 404 else 500;
      }
    }

    /** DELETE /api/v1/keys/{id}. */
    method DeleteKey(key: string) returns (status: int)
      modifies store
      ensures (store.State(), status) == Lifecycle.Handle(old(store.State()), Lifecycle.DeleteKey(key))
    {
      var r := store.RevokeKey(key);
      if r.Ok? {
        return 204;
      }
      if key in store.keys {
        return 204;
      }
      return 404;
    }

    /** PATCH /api/v1/accounts/{id}. */
    method PatchAccount(account: string, email: Option<string>, org: Option<string>, status: Option<string>)
      returns (code: int)
      modifies store
      ensures (store.State(), code) ==
              Lifecycle.Handle(old(store.State()), Lifecycle.PatchAccount(account, email, org, status))
    {
      if account !in store.accounts || store.accounts[account].status == Deleted {
        return 404;
      }
      var target := None;
      if status.Some? {
        if status.value == "deleted" {
          return 400;
        }
        if status.value != "active" && status.value != "suspended" {
          return 400;
        }
        target := Some(if status.value == "active" then Active else Suspended);
      }
      var r := store.UpdateAccount(account, AccountUpdate(email, org, target));
      match r {
        case Ok(_) => return 200;
        case Err(e) => return Lifecycle.StatusOf(e);
      }
    }

    /** DELETE /api/v1/accounts/{id}: the preview's count is the number a confirmed call revokes. */
    method DeleteAccount(account: string, confirm: string) returns (code: int, impact: Option<nat>)
      modifies store
      ensures (store.State(), code) == Lifecycle.Handle(old(store.State()), Lifecycle.DeleteAccount(account, confirm))
      ensures impact.Some? ==> impact.value == |ActiveKeysOfAccount(old(store.keys), account)|
      ensures impact.Some? <==> GetAccount(old(store.State()), account).Ok? && !(confirm == account == LEGACY)
    {
      impact := None;
      if account !in store.accounts || store.accounts[account].status == Deleted {
        return 404, None;
      }
      if confirm != account {
        return 409, Some(|ActiveKeysOfAccount(store.keys, account)|);
      }
      var r := store.DeleteAccountWithCascade(account);
      match r {
        case Ok(n) => return 200, Some(n);
        case Err(e) => return Lifecycle.StatusOf(e), None;
      }
    }

    /** DELETE /api/v1/components/{name}, with the same promise. */
    method DeleteComponent(name: string, confirm: string) returns (code: int, impact: Option<nat>)
      modifies store
      ensures (store.State(), code) == Lifecycle.Handle(old(store.State()), Lifecycle.DeleteComponent(name, confirm))
      ensures impact.Some? ==> impact.value == |ActiveKeysOfComponent(old(store.keys), name)|
      ensures impact.Some? <==> name in old(store.components)
    {
      impact := None;
      if name !in store.components {
        return 404, None;
      }
      var n := |ActiveKeysOfComponent(store.keys, name)|;
      if confirm != name {
        return 409, Some(n);
      }
      var r := store.DeleteComponentWithRevoke(name);
      match r {
        case Ok(revoked) => return 200, Some(revoked);
        case Err(_) => return 500, None;
      }
    }

    /** POST /api/v1/components: trim the name, insert, provision, roll back without revoking when the disk fails. */
    method CreateComponent(req: Component, diskOk: bool) returns (code: int)
      modifies store
      ensures (store.State(), code) == Lifecycle.Handle(old(store.State()), Lifecycle.CreateComponent(req, diskOk))
    {
      var c := req.(name := Lifecycle.TrimSpace(req.name));
      if !Lifecycle.ProvisionableComponent(c) {
        return 400;
      }
      var r := store.CreateComponent(c);
      match r {
        case Err(e) => return Lifecycle.StatusOf(e);
        case Ok(created) =>
          if !diskOk {
            var _ := store.DeleteComponent(created.name);
            return 500;
          }
          return 201;
      }
    }

    /** PATCH /api/v1/components/{name}: provision first, so a disk failure leaves the record alone. */
    method PatchComponent(name: string, p: Patch, diskOk: bool) returns (code: int)
      modifies store
      ensures (store.State(), code) == Lifecycle.Handle(old(store.State()), Lifecycle.PatchComponent(name, p, diskOk))
    {
      if !Lifecycle.ProvisionablePatch(p) {
        return 400;
      }
      if name !in store.components {
        return 404;
      }
      if !diskOk {
        return 500;
      }
      var r := store.UpdateComponent(name, p);
      match r {
        case Ok(_) => return 200;
        case Err(e) => return Lifecycle.StatusOf(e);
      }
    }
  }
}
