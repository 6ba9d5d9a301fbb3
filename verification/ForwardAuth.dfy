/**
 The forward-auth decision (auth/internal/handler/forward_auth.go), over any way of looking a component
 up, so that the cached service and the uncached one are two instances of the same function.
 */
module ForwardAuth {
  import opened Wrappers
  import opened Components
  import opened Database
  import CacheCurrent
  import CacheFreshness
  import CacheModel
  import Lifecycle
  import RequestPath

  /** The headers the decision reads; no password when there is no Basic credential. */
  datatype Request = Request(forwardedMethod: string, ownMethod: string, uri: string, password: Option<string>)

  /** Which of the reads behind the decision fail. */
  datatype Reads = Reads(keysOk: bool, accountsOk: bool)

  function MethodOf(r: Request): string {
    if r.forwardedMethod == "" then r.ownMethod else r.forwardedMethod
  }

  predicate WellFormedKey(p: Option<string>) {
    p.Some? && |p.value| == 64 && forall c | c in p.value :: RequestPath.HexDigit(c)
  }

  /** Before any read: a final status, or the component to decide about. */
  datatype Route = Refused(status: int) | To(component: string)

  function Routed(r: Request): Route {
    if MethodOf(r) != "GET" && MethodOf(r) != "HEAD" then Refused(405)
    else if RequestPath.IsRegistryPing(r.uri) then Refused(401)
    else match RequestPath.ExtractComponent(r.uri)
      case None => Refused(404)
      case Some(c) => To(c)
  }

  function Decided(g: GetResult, component: string, password: Option<string>, db: DB, works: Reads): int {
    match g
    case Absent => 401
    case Failed => 503
    case Found(comp) =>
      if Public(comp) then 200
      else if !WellFormedKey(password) then 401
      else Subscriber(password.value, component, db, works)
  }

  function Respond(r: Request, lookup: string -> GetResult, db: DB, works: Reads): int {
    match Routed(r)
    case Refused(status) => status
    case To(c) => Decided(lookup(c), c, r.password, db, works)
  }

  function Subscriber(value: string, component: string, db: DB, works: Reads): int {
    if !works.keysOk then 503
    else match GetByValue(db, value)
      case Err(_) => 401
      case Ok(key) =>
        if key.component != component then 401
        else if !works.accountsOk then 503
        else match GetAccount(db, key.account)
          case Err(_) => 401
          case Ok(a) => if a.status.Active? then 200 else 401
  }

  /** Every component read straight from the table. */
  function Direct(t: Table, ok: bool): string -> GetResult {
    name => ReadTable(t, name, ok)
  }

  /** Every component read through the cache, one call at a time. */
  function Cached(ttl: int, s: CacheModel.State, ok: bool): string -> GetResult {
    name => CacheModel.Alone(ttl, s.cache, s.store, name, ok, s.now).1
  }

  // ---- Who gets in ----

  /** A live key for the component, under an active account. */
  predicate Holds(db: DB, value: string, component: string) {
    && value in db.keys && db.keys[value].active && db.keys[value].component == component
    && db.keys[value].account in db.accounts && db.accounts[db.keys[value].account].status.Active?
  }

  predicate Opens(db: DB, password: Option<string>, component: string)
    requires component in db.components
  {
    Public(db.components[component]) || (WellFormedKey(password) && Holds(db, password.value, component))
  }

  /** The request reads a path that serves the component. */
  ghost predicate Names(r: Request, c: string) {
    (MethodOf(r) == "GET" || MethodOf(r) == "HEAD") && RequestPath.Served(RequestPath.TrimSlashPrefix(r.uri), c)
  }

  /** The same, over every request, with no reference to the order of the checks. */
  ghost predicate Admitted(r: Request, db: DB) {
    exists c | Names(r, c) && c in db.components :: Opens(db, r.password, c)
  }

  lemma RoutesToTheServed(r: Request, c: string)
    ensures Routed(r) == To(c) <==> Names(r, c)
  {
    RequestPath.ExtractsExactlyTheServed(r.uri, c);
    if RequestPath.IsRegistryPing(r.uri) {
      RequestPath.PingNamesNothing(r.uri);
    }
  }

  lemma DecidedAllows(db: DB, password: Option<string>, c: string)
    ensures Decided(ReadTable(db.components, c, true), c, password, db, Reads(true, true)) == 200 <==>
            c in db.components && Opens(db, password, c)
  {
  }

  /** With every read working, a request is allowed exactly when it is admitted. */
  lemma AllowsExactlyTheAdmitted(r: Request, db: DB)
    ensures Respond(r, Direct(db.components, true), db, Reads(true, true)) == 200 <==> Admitted(r, db)
  {
    if Routed(r).To? {
      DecidedAllows(db, r.password, Routed(r).component);
      RoutesToTheServed(r, Routed(r).component);
    }
    if c :| Names(r, c) && c in db.components && Opens(db, r.password, c) {
      RoutesToTheServed(r, c);
    }
  }

  /** A failing read never lets in a request that working reads would refuse. */
  lemma FailsClosed(r: Request, db: DB, componentsOk: bool, works: Reads)
    ensures Respond(r, Direct(db.components, componentsOk), db, works) == 200 ==>
            Respond(r, Direct(db.components, true), db, Reads(true, true)) == 200
  {
  }

  // ---- The cache underneath ----

  ghost predicate LiveEntry(ttl: int, s: CacheModel.State, name: string) {
    ttl > 0 && name in s.cache.entries && s.now < s.cache.entries[name].expiresAt
  }

  /**
   With no unevicted write and no running lookup of the name, a call that runs by itself reads it as from
   the table; and `Cached` is what that call is answered.
   */
  lemma CachedReadIsDirect(ttl: int, s: CacheModel.State, bound: nat, id: nat, name: string, ok: bool)
    requires CacheModel.Invariant(ttl, s, bound) && s.pending[name] == 0
    requires name !in s.flights && id !in s.callers
    ensures var end := CacheModel.Run(ttl, s, CacheModel.AloneSteps(id, name, ok));
            id in end.callers && end.callers[id].Done? && end.callers[id].result == Cached(ttl, s, ok)(name)
    ensures LiveEntry(ttl, s, name) ==> name in s.store && Public(s.store[name])
    ensures Cached(ttl, s, ok)(name) == Direct(s.store, ok || LiveEntry(ttl, s, name))(name)
  {
    CacheModel.AloneIsTheInterleaving(ttl, s, id, name, ok);
    assert CacheModel.NameCoherent(s, name, bound);
  }

  lemma DecisionRefines(ttl: int, s: CacheModel.State, bound: nat, id: nat, c: string, password: Option<string>,
                        db: DB, works: Reads, ok: bool)
    requires CacheModel.Invariant(ttl, s, bound) && s.pending[c] == 0 && c !in s.flights && id !in s.callers
    ensures var direct := Decided(ReadTable(s.store, c, ok), c, password, db, works);
            Decided(Cached(ttl, s, ok)(c), c, password, db, works) ==
            if !ok && LiveEntry(ttl, s, c) then 200 else direct
    ensures !ok ==> Decided(ReadTable(s.store, c, false), c, password, db, works) == 503
    ensures LiveEntry(ttl, s, c) ==> Decided(ReadTable(s.store, c, true), c, password, db, works) == 200
  {
    CachedReadIsDirect(ttl, s, bound, id, c, ok);
  }

  /**
   A forward-auth request that runs by itself, in any reachable state in which the requested component has
   no write between commit and evict and no shared lookup running, gets the status it would get without
   the cache. When component reads fail the two differ on exactly the requests for a component that is
   cached, not expired and, in the table still, public: those are answered 200 instead of 503.
   */
  lemma CachedRefinesDirect(ttl: int, s: CacheModel.State, bound: nat, id: nat, r: Request, db: DB, works: Reads,
                            ok: bool)
    requires CacheModel.Invariant(ttl, s, bound) && s.store == db.components && id !in s.callers
    requires forall c | RequestPath.ExtractComponent(r.uri) == Some(c) :: s.pending[c] == 0 && c !in s.flights
    ensures ok ==> Respond(r, Cached(ttl, s, ok), db, works) == Respond(r, Direct(s.store, ok), db, works)
    ensures !ok ==>
      var direct := Respond(r, Direct(s.store, false), db, works);
      Respond(r, Cached(ttl, s, false), db, works) ==
      if direct == 503 && LiveEntry(ttl, s, RequestPath.ExtractComponent(r.uri).value) then 200 else direct
    ensures !ok && Respond(r, Cached(ttl, s, ok), db, works) == 200 ==>
      Respond(r, Direct(s.store, true), db, works) == 200
  {
    if Routed(r).To? {
      DecisionRefines(ttl, s, bound, id, Routed(r).component, r.password, db, works, ok);
    }
  }

  // ---- With any number of calls running beside it ----

  /** The status of a request whose component lookup was answered `g`. */
  function StatusOf(r: Request, g: GetResult, db: DB, works: Reads): int {
    Respond(r, name => g, db, works)
  }

  /**
   Over every interleaving, from any state in which its component is current: a request that begins then is
   decided as the service without the cache would decide it at some moment of the run, whatever else runs
   and writes meanwhile; a failed lookup is decided as a failed read.
   */
  lemma DecidedAsOfSomeMoment(ttl: int, s0: CacheModel.State, acts: seq<CacheModel.Action>, id: nat, forward: bool,
                              r: Request, db: DB, works: Reads)
    returns (k: nat)
    requires Routed(r).To? && CacheCurrent.Current(s0, Routed(r).component, forward)
    requires CacheCurrent.Allowed(acts, forward) && CacheCurrent.Answered(ttl, s0, acts, id, Routed(r).component)
    ensures k <= |acts|
    ensures var g := CacheModel.Run(ttl, s0, acts).callers[id].result;
            StatusOf(r, g, db, works) ==
            Respond(r, Direct(CacheModel.Run(ttl, s0, acts[..k]).store, g != Failed), db, works)
  {
    var name := Routed(r).component;
    CacheCurrent.AllAnswersAreFresh(ttl, s0, acts, id, name, forward);
    var g := CacheModel.Run(ttl, s0, acts).callers[id].result;
    if g == Failed {
      k := 0;
    } else {
      k :| 0 <= k <= |acts| && g == ReadTable(CacheModel.Run(ttl, s0, acts[..k]).store, name);
    }
  }

  /** So while the component's row stays as it is, every such request gets exactly the uncached service's status. */
  lemma ConcurrentCachedIsDirect(ttl: int, s0: CacheModel.State, acts: seq<CacheModel.Action>, id: nat, forward: bool,
                                 r: Request, db: DB, works: Reads)
    requires Routed(r).To? && CacheCurrent.Current(s0, Routed(r).component, forward)
    requires CacheCurrent.Allowed(acts, forward) && CacheCurrent.Answered(ttl, s0, acts, id, Routed(r).component)
    requires forall k | 0 <= k <= |acts| ::
               ReadTable(CacheModel.Run(ttl, s0, acts[..k]).store, Routed(r).component) ==
               ReadTable(db.components, Routed(r).component)
    ensures var g := CacheModel.Run(ttl, s0, acts).callers[id].result;
            StatusOf(r, g, db, works) == Respond(r, Direct(db.components, g != Failed), db, works)
  {
    var k := DecidedAsOfSomeMoment(ttl, s0, acts, id, forward, r, db, works);
  }

  /**
   Not every reachable state is current: for every public component there is a run in which a request
   that begins after its deletion was evicted joins an older lookup and is let in.
   */
  lemma LateJoinerIsLetIn(ttl: int, t: Table, name: string, now: int, r: Request, db: DB, works: Reads)
    requires ttl > 0 && name in t && Public(t[name]) && Routed(r) == To(name) && db.components == t - {name}
    ensures var quiet := CacheModel.Run(ttl, CacheModel.Start(t, now), CacheFreshness.Overtaken(name, Delete));
            var end := CacheModel.Run(ttl, quiet, CacheFreshness.LateJoin(name));
            && quiet.store == db.components && quiet.pending[name] == 0 && 2 !in quiet.callers
            && 2 in end.callers && end.callers[2].Done?
            && !CacheCurrent.Current(quiet, name, true)
            && StatusOf(r, end.callers[2].result, db, works) == 200
            && Respond(r, Direct(db.components, true), db, works) == 401
  {
    CacheFreshness.LateJoinerSeesOldValue(ttl, t, name, Delete, now);
    LateJoinerStarts(ttl, t, name, now);
  }

  lemma LateJoinerStarts(ttl: int, t: Table, name: string, now: int)
    requires ttl > 0 && name in t
    ensures !CacheCurrent.Current(CacheModel.Run(ttl, CacheModel.Start(t, now),
            CacheFreshness.Overtaken(name, Delete)), name, true)
  {
    CacheCurrent.OvertakenIsNotCurrent(ttl, t, name, Delete, now, true);
  }

  // ---- Across the lifecycle ----

  /** No key issued for a deleted component ever opens a private component of the same name. */
  lemma DeletedComponentStaysShut(before: DB, name: string, rs: seq<Lifecycle.Request>, r: Request, value: string)
    requires Lifecycle.Invariant(before) && name in before.components
    requires value in before.keys && before.keys[value].component == name && r.password == Some(value)
    ensures var db := Lifecycle.Run(Lifecycle.Handle(before, Lifecycle.DeleteComponent(name, name)).0, rs);
            RequestPath.ExtractComponent(r.uri) == Some(name)
                && !(name in db.components && Public(db.components[name])) ==>
              Respond(r, Direct(db.components, true), db, Reads(true, true)) != 200
  {
    Lifecycle.RecreationRevivesNothing(before, name, rs, value);
  }

  lemma SuspendedSubscriberIsRefused(db: DB, value: string, c: string, works: Reads)
    requires value in db.keys && db.keys[value].account in db.accounts
    requires db.accounts[db.keys[value].account].status.Suspended?
    ensures Subscriber(value, c, db, works) != 200
  {
  }

  /** A suspended account's keys open nothing private. */
  lemma SuspendedKeysAreShut(db: DB, r: Request, value: string)
    requires value in db.keys && db.keys[value].account in db.accounts && r.password == Some(value)
    requires db.accounts[db.keys[value].account].status.Suspended?
    requires Respond(r, Direct(db.components, true), db, Reads(true, true)) == 200
    ensures Routed(r).To? && Routed(r).component in db.components && Public(db.components[Routed(r).component])
  {
    var c := Routed(r).component;
    SuspendedSubscriberIsRefused(db, value, c, Reads(true, true));
  }

  /** Suspending shuts what the account's keys opened, and reactivation restores every answer. */
  lemma SuspensionShutsAndReopens(db: DB, id: string, r: Request, value: string)
    requires Lifecycle.Invariant(db) && id != LEGACY && id in db.accounts && db.accounts[id].status.Active?
    requires value in db.keys && db.keys[value].account == id && r.password == Some(value)
    ensures var suspended := Lifecycle.Handle(db, Lifecycle.PatchAccount(id, None, None, Some("suspended"))).0;
            var back := Lifecycle.Handle(suspended, Lifecycle.PatchAccount(id, None, None, Some("active"))).0;
            && (Respond(r, Direct(suspended.components, true), suspended, Reads(true, true)) == 200 ==>
                  && Routed(r).To? && Routed(r).component in suspended.components
                  && Public(suspended.components[Routed(r).component]))
            && back == db
  {
    Lifecycle.SuspensionRoundTrip(db, id);
    var suspended := Lifecycle.Handle(db, Lifecycle.PatchAccount(id, None, None, Some("suspended"))).0;
    assert id in suspended.accounts && suspended.accounts[id].status.Suspended? && suspended.keys == db.keys;
    if Respond(r, Direct(suspended.components, true), suspended, Reads(true, true)) == 200 {
      SuspendedKeysAreShut(suspended, r, value);
    }
  }

  // ---- The handler ----

  /** The key an allowed request was allowed by; None for a public component. */
  function AllowedBy(r: Request, lookup: string -> GetResult, db: DB, works: Reads): Option<string> {
    match Routed(r)
    case Refused(_) => None
    case To(c) =>
      if Decided(lookup(c), c, r.password, db, works) != 200 || Public(lookup(c).comp) then None else r.password
  }

  class Handler {
    const store: SQLiteStore

    constructor (store: SQLiteStore)
      ensures this.store == store
    {
      this.store := store;
    }

    /** The usage count of the key that opened the door goes up by one; failing to count denies nothing. */
    method ServeHTTP(r: Request, lookup: string -> GetResult, works: Reads, countOk: bool) returns (status: int)
      modifies store
      ensures status == Respond(r, lookup, old(store.State()), works)
      ensures var opener := AllowedBy(r, lookup, old(store.State()), works);
              store.State() == if opener.Some? && countOk then UsageIncremented(old(store.State()), opener.value).value
                               else old(store.State())
    {
      var forwarded := r.forwardedMethod;
      if forwarded == "" {
        forwarded := r.ownMethod;
      }
      if forwarded != "GET" && forwarded != "HEAD" {
        return 405;
      }
      if RequestPath.IsRegistryPing(r.uri) {
        return 401;
      }
      var c := RequestPath.ExtractComponent(r.uri);
      if c.None? {
        return 404;
      }
      var found := lookup(c.value);
      if !found.Found? {
        return if found.Absent? then 401 else 503;
      }
      if found.comp.visibility == "public" {
        return 200;
      }
      if r.password.None? || |r.password.value| != 64 {
        return 401;
      }
      var hex := RequestPath.IsHex(r.password.value);
      if !hex {
        return 401;
      }
      status := CheckKey(r.password.value, c.value, works, countOk);
    }

    method CheckKey(value: string, component: string, works: Reads, countOk: bool) returns (status: int)
      modifies store
      ensures status == Subscriber(value, component, old(store.State()), works)
      ensures store.State() == if status == 200 && countOk then UsageIncremented(old(store.State()), value).value
                               else old(store.State())
    {
      if !works.keysOk {
        return 503;
      }
      if value !in store.keys || !store.keys[value].active {
        return 401;
      }
      var key := store.keys[value];
      if key.component != component {
        return 401;
      }
      if !works.accountsOk {
        return 503;
      }
      if key.account !in store.accounts || store.accounts[key.account].status != Active {
        return 401;
      }
      if countOk {
        var _ := store.IncrementUsage(value);
      }
      return 200;
    }
  }
}
