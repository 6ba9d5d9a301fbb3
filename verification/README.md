# Verified model of the packyard auth service

The Go service under `auth/` guards package repositories: forward-auth decides who may download what, an
admin API manages accounts, keys, components and operators, operators sign in through OAuth, and SQLite
holds the tables. This project models its small concurrent state machines in Dafny and proves what they
promise. `dafny verify dfyconfig.toml` checks everything.

Each component comes in up to two forms. A *machine* lists every atomic step (a critical section, one SQL
statement or transaction, one reading of the clock) as a constructor of an `Action` datatype; a run is any
sequence of actions, a step that is not enabled changes nothing, and theorems quantify over all runs. An
*object* is a class whose methods update fields, arrays and maps as the Go code does, each proved against
the functions the machine is made of.

- `CacheModel`, `CacheFreshness`, `CacheCurrent`, `CacheStaleness`, `CacheWrap`, `CacheObject`: the
  public-component cache, with generations, shared lookups, two-lock lazy expiry and evict-after-commit
  writes. Generations are 64 bits wide; `CacheWrap` is the run that wraps them. `CacheObject` has heap lists
  and callers that write into them.
- `RateLimiter`, `RateLimiterLaw`, `RateLimiterAudit`, `RateLimiterWindow`: the token bucket, what it lets
  through stated without buckets, its reaper, and its audit coalescing.
- `OAuthState`, `Login`, `LoginObject`: the single-use state store and the login/callback protocol.
- `Sessions`, `SessionObjects`, `Operators`: session lifetimes under concurrent requests, forced logout,
  and the guard that keeps an active admin.
- `Database`, `Lifecycle`, `AdminApi`, `Interleaving`: accounts, keys and components, as transactions, as
  handlers, and as handlers whose transactions interleave.
- `ForwardAuth`, `RequestPath`: the decision itself, uncached and through the cache.
- `Migration`: the start-up migration under power cuts.
- `Paging`, `LinkHeader`, `PageWalk`: page walks, the header one side prints and the other parses, and both
  together.

Results where the code and its comments differ, or where a property holds only under a condition:

- The audit comment promises one row per IP and window (`ratelimit.go:24-27`). The reaper forgets the last
  row with the bucket, so with the defaults rows can be 54 s apart; `FullWindowIff` says exactly when the
  full window holds.
- The cache's header says a write is immediate on this instance (`cached_components.go:24-43`). It is not:
  `evict` does not forget a running shared lookup, so a call begun after a write may still be handed the
  value from before it (`LateJoinerSeesOldValue`), and be let in by it (`LateJoinerIsLetIn`).
  `FreshIffCurrent` is the exact condition, from any state at all: every later answer about a name is an
  error or a value the table held since, if and only if no entry that can still be served and no running
  lookup that has read holds another value than the table. From such a state every decision is the uncached
  one of some moment of the run (`DecidedAsOfSomeMoment`).
- Cache coherence needs fewer than 2^64 evictions of a name. `WrapBreaksCoherenceIff` is the run that breaks
  it at 2^64.
- A forced logout does not reach everything (`InFlightOutlivesTheSweep`). A request on an old session can
  still be admitted after it exactly when it has passed its time check, or has read its row and would pass
  now (`SweepLetsThroughIff`). A disabled operator still gets a session exactly when a callback had resolved
  them before (`DisabledOpensIff`), and that session goes live if they are enabled again
  (`LateSessionGoesLive`).
- The foreign-key check after the rebuild runs after its commit, so it refuses to start only once
  (`ForeignKeyCheckRefusesOnce`).
- The lifecycle theorems take one handler call as one step, and need to: interleaving component Create's
  rollback with a key issue leaves an active key without a component (`InterleavedRollbackLeaksAKey`), and a
  PATCH with a deletion between its read and its write revives the account
  (`InterleavedPatchRevivesAnAccount`). With the transactions of any number of handlers interleaved,
  `RootsSurvive` is what always holds; `SoundThroughoutIff` and `DeletionLastsIff` say exactly which steps
  break the rest.
- `keys.go:145-151` takes a repeated key DELETE for a missing row; `RevokeKey` has no active filter, so
  revoking twice succeeds twice, and the model follows the statement.

## Model

| member | source | states |
|---|---|---|
| CacheModel.CacheCoherence | auth/internal/store/cached_components.go:94-202 | in every interleaving in which no name is evicted 2^64 times, every name with no committed-but-unevicted write is cached only as the stored, public component, and a read in flight under a still current generation holds the stored value; creates need no eviction |
| CacheModel.NameCoherence | auth/internal/store/cached_components.go:94-202 | the same for one name, with only its own evictions counted |
| CacheModel.StepKeepsEntry | auth/internal/store/cached_components.go:137-202 | each atomic step, including an insert that lands between a write's commit and its evict, keeps a settled name's entry equal to the stored component |
| CacheModel.StepKeepsRead | auth/internal/store/cached_components.go:105-120 | each step keeps the promise that a record read under a current generation is the stored one |
| CacheModel.StepMovesGen | auth/internal/store/cached_components.go:128-176 | within the bound a generation never returns to an earlier value, so an evict outdates every lookup in flight |
| CacheModel.GenerationRepeats | auth/internal/store/cached_components.go:128-176 | the 64-bit counter is back at a captured generation after n evicts exactly when n is a multiple of 2^64 |
| CacheWrap.WrapBreaksCoherenceIff | auth/internal/store/cached_components.go:105-176 | the bound cannot be raised: for every public component and every patch that changes it, in the run where n writes pass between a lookup's read and its insert, the stale record lands exactly when n is a multiple of 2^64, and the cache then disagrees with the table exactly when n is not zero |
| CacheModel.AloneIsTheInterleaving | auth/internal/store/cached_components.go:94-126 | a call that runs alone leaves the cache and gives the answer of the one-call summary that the object's GetComponent is proved against |
| CacheFreshness.AnswersAreFresh | auth/internal/store/cached_components.go:94-176 | from a moment with no unevicted write, every call begun later and answered by a hit, directly, or by a lookup registered later, gets an error or a value the table held at or after that moment |
| CacheCurrent.FreshIffCurrent | auth/internal/store/cached_components.go:24-43 | when a write is immediate on this instance: from any state of an enabled cache, and both for arbitrary clocks and for ones that never step back, every later call of a name, in every run, is answered with an error or a value the table held since, if and only if the name's servable entry and what its running lookup has read are the stored value |
| CacheCurrent.AllAnswersAreFresh | auth/internal/store/cached_components.go:94-176 | so from such a state one answer, however given, is an error or what the table held at some later point of the run |
| CacheCurrent.CoherentIsCurrent | auth/internal/store/cached_components.go:94-202 | every coherent state without an unevicted write of the name is such a state, unless an older lookup has read and is still running |
| CacheCurrent.OvertakenIsNotCurrent | auth/internal/store/cached_components.go:105-176 | and with one it need not be: for every component and every write that changes it there is a run of the service after which the write has returned and later answers are not all fresh |
| CacheFreshness.RevocationTakesEffect | auth/internal/store/cached_components.go:178-202 | while a component stays non-public, no such call is told it is public |
| CacheFreshness.LateJoinerSeesOldValue | auth/internal/store/cached_components.go:105-120 | for every component and every write there is a run in which a call begun after the write returned joins an older lookup and gets the old value, which still never enters the cache |
| CacheFreshness.SnapshotsAreTableValues | auth/internal/store/cached_components.go:94-126 | the values an answer may take are exactly an error or what the table held after some prefix of the run |
| CacheStaleness.LazyExpiryIsSafe | auth/internal/store/cached_components.go:134-153 | between finding an entry expired and taking the write lock any inserts may land; an entry still valid is never removed |
| CacheStaleness.StalenessIsBounded | auth/internal/store/cached_components.go:22-22 | with writers that bypass this instance: once a component has stopped being public, no hit serves it ttl + lookupTimeout later, if lookups insert within lookupTimeout of their read |
| CacheObject.CloneComponent | auth/internal/store/cached_components.go:85-90 | a clone has the same value and shares no list with its source |
| CacheObject.CachedComponentStore.GetComponent | auth/internal/store/cached_components.go:94-126 | the call's effect on the two maps and its answer are the one-call summary's; the record handed out is the caller's own, and whatever else is lent out meanwhile is new, so pending results stay apart |
| CacheObject.CachedComponentStore.Lookup | auth/internal/store/cached_components.go:137-153 | a live entry is returned as a fresh copy; a dead one goes, with nothing else touched |
| CacheObject.CachedComponentStore.Insert | auth/internal/store/cached_components.go:157-167 | an insert under an outdated generation changes nothing; otherwise a private copy is stored until now + ttl |
| CacheObject.CachedComponentStore.Evict | auth/internal/store/cached_components.go:169-176 | the entry goes and the generation moves on, modulo 2^64 |
| CacheObject.CachedComponentStore.Write | auth/internal/store/cached_components.go:178-202 | only a successful write evicts, and only when the cache is on |
| CacheObject.CachedComponentStore.Fetch | auth/internal/store/cached_components.go:105-120 | the shared lookup's record is shared neither with the cache nor with any caller, and is kept apart from both until it is taken |
| CacheObject.CachedComponentStore.Lend | auth/internal/store/cached_components.go:121-125 | leader and joiners each get an equal record whose lists nobody else has |
| CacheObject.CallerWrites | auth/internal/store/cached_components.go:85-90 | one write of a caller into a list it was given leaves every cache entry and every pending lookup result as they were |
| CacheObject.Callers.Serve | auth/internal/store/cached_components.go:85-126 | in any sequence of calls, shared lookups, late takers and component writes, with callers writing anything into anything they were ever given in between, the cache, the table and every answer are those of a ledger of values |
| CacheObject.ScribblesLeaveNoTrace | auth/internal/store/cached_components.go:85-126 | and that ledger is the one of the same sequence with the callers' writes left out |
| RateLimiterLaw.AllowedExactlyWhenItFits | auth/internal/middleware/ratelimit.go:134-171 | on a nondecreasing clock a request is allowed exactly when, for every earlier allowed one of its IP, those since then and this one number at most capacity + refill x elapsed, reaps at any moment |
| RateLimiterLaw.WindowsAreBounded | auth/internal/middleware/ratelimit.go:134-171 | any window passes at most capacity + refill x its length |
| RateLimiterLaw.LevelIsTheTightestBurst | auth/internal/middleware/ratelimit.go:146-159 | lazy refill with clamping holds n tokens exactly when no burst ending now leaves fewer |
| RateLimiterLaw.ReaperIsInvisible | auth/internal/middleware/ratelimit.go:213-227 | over many IPs, erasing every reap from a run leaves the allow/deny sequence as it was |
| RateLimiterAudit.AuditsAreApart | auth/internal/middleware/ratelimit.go:160-168 | two audited denials of an IP are at least min(window, (capacity - 1) / refill) apart, and a full window when no reap of the bucket falls between |
| RateLimiterAudit.UnauditedFollowsAudited | auth/internal/middleware/ratelimit.go:160-168 | every denial without a row follows an audited one of its IP by less than the window |
| RateLimiterAudit.DefaultAuditsAreApart | auth/internal/middleware/ratelimit.go:22-30 | with the defaults audited denials are at least 54 s apart |
| RateLimiterWindow.FullWindowIff | auth/internal/middleware/ratelimit.go:24-30 | the promised full window between any two rows holds if and only if refilling capacity - 1 tokens takes at least the window |
| RateLimiterWindow.DefaultsBreakTheWindow | auth/internal/middleware/ratelimit.go:22-30 | so the defaults break the one-row-per-window comment |
| RateLimiterAudit.SpendingIsBounded | auth/internal/middleware/ratelimit.go:146-171 | on any clock, even one that steps back, tokens stay within 0 and capacity and an IP's allowed requests within capacity + refill x the clock's forward movement |
| RateLimiterAudit.NeverBlackholed | auth/internal/middleware/ratelimit.go:146-171 | on any clock, a request 1/refill seconds after its bucket's last update is allowed |
| RateLimiter.Configure | auth/internal/middleware/ratelimit.go:69-88 | every configuration ends up with at least one token and a positive refill, and sound settings are kept |
| RateLimiter.Cell.Take | auth/internal/middleware/ratelimit.go:146-171 | the in-place update of one bucket gives the specified bucket, verdict and audit flag |
| RateLimiter.Limiter.Check | auth/internal/middleware/ratelimit.go:134-171 | one check updates exactly its own IP's bucket, as specified |
| RateLimiter.Limiter.Reap | auth/internal/middleware/ratelimit.go:216-227 | the loop removes exactly the buckets that have refilled |
| OAuthState.ConsumedExactlyWhenPending | auth/internal/auth/state.go:90-135 | whatever reaps ran, Consume answers an entry exactly when it was stored under the handle, nothing used the handle since and it is at most StateTTL old |
| OAuthState.ReaperIsInvisible | auth/internal/auth/state.go:90-99 | no Consume answers differently from a store that never reaps |
| OAuthState.MemStateStore.Put | auth/internal/auth/state.go:110-117 | the entry replaces what the handle held, stamped now unless it brought a time |
| OAuthState.MemStateStore.Consume | auth/internal/auth/state.go:123-135 | the entry is gone even when it is too old to be answered |
| OAuthState.MemStateStore.Reap | auth/internal/auth/state.go:90-99 | the loop removes exactly the entries older than StateTTL |
| Login.SessionsComeFromLogins | auth/internal/handler/auth.go:63-235 | over all interleavings, every session's callback named the provider and brought back the state and handle of one earlier login, at most StateTTL before it consumed them (section 10.12 of RFC 6749) |
| Login.OriginsAreDistinct | auth/internal/handler/auth.go:119-165 | different sessions go back to different logins, even if random values repeat |
| Login.LoginsAreConsumedOnce | auth/internal/handler/auth.go:153-165 | two callbacks never pass the state check on the same login |
| Login.SessionsNeverOutnumberLogins | auth/internal/handler/auth.go:63-235 | sessions, running callbacks and stored flows together never outnumber logins |
| Login.SessionsAreForVouchedOperators | auth/internal/handler/auth.go:167-234 | a session is only created for an operator that was active when looked up, after the check, under the non-empty email the provider returned to this callback |
| Login.DisabledOpensIff | auth/internal/handler/auth.go:192-235 | while an operator stays disabled, some run creates a session for them if and only if a callback had already resolved them |
| LoginObject.AuthHandler.Login | auth/internal/handler/auth.go:63-107 | a flow is stored exactly for a known provider with random values drawn |
| LoginObject.AuthHandler.CheckState | auth/internal/handler/auth.go:119-165 | the handle is consumed before anything is compared, except when parameters or cookie are missing; an unknown provider uses it up too |
| LoginObject.AuthHandler.Callback | auth/internal/handler/auth.go:119-281 | a login succeeds exactly when state, identity, operator and insert allow it; a refusal changes no operator and no session, and carries the code of the step that refused, for every step, with each store call failing or not |
| LoginObject.AuthHandler.Logout | auth/internal/handler/auth.go:413-465 | the cookie's session is gone unless the delete failed, every other one stays, and the audited outcome says which |
| LoginObject.CallbackIsARun | auth/internal/handler/auth.go:119-235 | a callback with nothing in between is four steps of the machine |
| Sessions.AdmittedInTime | auth/internal/middleware/session.go:105-165 | with requests finishing in any order, a request admitted at t has t at most 24 h after the session's creation and 8 h after its creation or an accepted request, for the session's own operator |
| Sessions.RefusedOnlyWhenDue | auth/internal/middleware/session.go:105-115 | none is refused for its age more than a second before one of these limits; the second is lost to whole-second columns |
| Sessions.RowIsItsHistory | auth/internal/store/sessions.go:33-114 | in every run a stored row is its creation and latest accepted request, cut to whole seconds |
| Sessions.SurvivorsWereThere | auth/internal/store/sessions.go:84-135 | a deleted row comes back only by a new creation, never by a late touch, and last_seen_at never decreases |
| Sessions.SweepIsFinal | auth/internal/handler/operators.go:278-286 | after a forced logout, even after re-enabling, a request of the operator that was not in flight belongs to a session created later |
| Sessions.SweepLetsThroughIff | auth/internal/handler/operators.go:278-286 | exactly what outlives it: from any state with no row of the operator left, some run admits one of their requests on a session created before if and only if such a request has passed its time check, or has read its row and is in time now |
| Sessions.InFlightOutlivesTheSweep | auth/internal/middleware/session.go:117-165 | it happens: for every live session of a demotable admin, a request past its lookup is admitted after the sweep, as read-only, and its session stays gone |
| Sessions.LateSessionGoesLive | auth/internal/store/sessions.go:33-64 | a session inserted for a disabled operator is admitted once they are enabled again |
| Sessions.DisabledAdmitsNothing | auth/internal/middleware/session.go:117-139 | over any run during which an operator stays disabled, no request of theirs is admitted, in flight or not: a running one was running before |
| Sessions.DisabledIsDropped | auth/internal/middleware/session.go:133-139 | a request refused for it takes its session with it |
| SessionObjects.SessionStore.CreateSession | auth/internal/store/sessions.go:33-64 | a row is inserted for an existing operator, with truncated times; the returned session has the exact ones |
| SessionObjects.SessionStore.GetSession | auth/internal/store/sessions.go:66-82 | a session whose operator is gone is not found |
| SessionObjects.SessionStore.TouchSession | auth/internal/store/sessions.go:88-114 | last_seen_at only moves forward, and the call fails only for a missing row |
| SessionObjects.SessionStore.DeleteSession | auth/internal/store/sessions.go:116-121 | exactly this row goes |
| SessionObjects.SessionStore.DeleteOperatorSessions | auth/internal/store/sessions.go:123-135 | exactly the operator's rows go; an empty id is an error and deletes nothing |
| SessionObjects.FirstCallDecides | auth/internal/middleware/session.go:170-201 | whatever a handler writes, the request counts as accepted exactly when its first call was WriteHeader with a 2xx or 3xx |
| SessionObjects.TouchTrackingWriter.WriteHeader | auth/internal/middleware/session.go:184-191 | the three fields always summarise the calls made so far |
| SessionObjects.TouchTrackingWriter.Write | auth/internal/middleware/session.go:193-201 | an implicit 200 is recorded but never trusted |
| SessionObjects.RequireSession.Admit | auth/internal/middleware/session.go:78-145 | the verdict for any operators table at the second read, the row it deletes unless that delete fails, and that a cookie survives exactly admissions and store failures |
| SessionObjects.RequireSession.Finish | auth/internal/middleware/session.go:156-165 | the idle window slides exactly after an explicit success whose touch reached the store |
| SessionObjects.AdmissionIsARun | auth/internal/middleware/session.go:78-145 | one request takes the steps of the session machine, whatever happens to the operators between its two reads |
| SessionObjects.OperatorsHandler.Update | auth/internal/handler/operators.go:187-291 | validation, the guarded update, its status codes, and a forced logout exactly on losing the role or being disabled; when that delete fails the answer is the same and the sessions stay |
| Operators.LockoutIff | auth/internal/store/operators.go:191-236 | the lockout error comes exactly for the updates that would take the table from some active admin to none |
| Operators.AdminRemains | auth/internal/store/operators.go:181-272 | once there is an active admin, every run of bootstraps, allowlistings, PATCHes and logins leaves one |
| Operators.BootstrapSettlesIt | auth/internal/store/operators.go:364-420 | booting with a valid address into an empty table gives one for good |
| Operators.UnguardedDisableIsSafeIff | auth/internal/store/operators.go:87-101 | the unguarded DisableOperator keeps an admin exactly when another active one is left |
| Operators.RunIsForward | auth/internal/store/operators.go:282-345 | in every run emails stay unique, login times never go back and captured identities are never replaced |
| Operators.OperatorStore.UpdateOperatorAtomically | auth/internal/store/operators.go:191-272 | read, count and write in one transaction; every error leaves the table as it was |
| Operators.OperatorStore.BootstrapOperatorFromEnv | auth/internal/store/operators.go:364-420 | an insert happens only into an empty table, and is then its one active admin |
| Operators.OperatorStore.AllowlistOperator | auth/internal/store/operators.go:59-85 | a new active row, or the error for an invalid or taken email |
| Operators.OperatorStore.GetOperatorByEmail | auth/internal/store/operators.go:44-57 | a row with exactly this email, if there is one |
| Operators.OperatorStore.UpdateLastLogin | auth/internal/store/operators.go:282-313 | the column only moves forward; a missing row is the only error |
| Operators.OperatorStore.UpdateLoginProvider | auth/internal/store/operators.go:323-345 | each identity column is written once |
| Lifecycle.LifecycleKeeps | auth/internal/handler/keys.go:209-269 | every run of admin calls keeps: active keys have an existing component and an undeleted account, legacy stays active, emails valid and unique; revoked keys and deleted accounts stay so |
| Lifecycle.FreshIsInvariant | auth/internal/store/sqlite.go:164-177 | so it holds in every run from a fresh database |
| Lifecycle.RecreationRevivesNothing | auth/internal/store/sqlite.go:671-704 | re-creating a deleted component never revives a key issued for the old one |
| Lifecycle.DeletionIsFinal | auth/internal/store/accounts.go:186-235 | a deleted account stays hidden with all its keys revoked, whatever follows |
| Lifecycle.SuspensionRoundTrip | auth/internal/handler/accounts.go:318-415 | suspending and reactivating restores the database exactly |
| Lifecycle.ProvisioningIsSafe | auth/internal/handler/components.go:128-150 | a failed provisioning rolls the insert back to the very same database |
| Lifecycle.PlainDeleteIsSafeIff | auth/internal/store/sqlite.go:626-640 | the non-revoking delete keeps the invariant exactly when no active key names the component |
| Lifecycle.KeyInsertIsSafeIff | auth/internal/store/accounts.go:279-305 | the key insert keeps it exactly when the component exists and the account is not deleted |
| Lifecycle.AccountUpdateIsForwardIff | auth/internal/store/accounts.go:131-180 | the bare update, which has no status guard, takes nothing back exactly when the row is not deleted or no status is given |
| Lifecycle.InterleavedPatchRevivesAnAccount | auth/internal/handler/accounts.go:318-415 | with a deletion between a PATCH's lookup and its write, every live account but legacy comes back, its keys still revoked |
| Lifecycle.InterleavedRollbackLeaksAKey | auth/internal/handler/components.go:128-150 | with a key issued between insert and rollback every store call succeeds and the invariant breaks |
| Interleaving.RootsSurvive | auth/internal/handler/keys.go:209-269 | with the transactions of any number of calls interleaved in any way: keys keep their account row, owner and component and stay revoked once revoked, no account row goes, legacy stays active, emails stay valid and unique |
| Interleaving.SoundThroughoutIff | auth/internal/handler/accounts.go:533-618 | over any such run active keys keep their component and an undeleted account all along if and only if no insert comes after its component went or its account was deleted, and no rollback after its component got an active key |
| Interleaving.KeyWasIssued | auth/internal/handler/accounts.go:533-618 | every new key was inserted by a call that had seen its account active and then its component, with what it still has |
| Interleaving.KeyWithoutComponent | auth/internal/handler/components.go:128-150 | every active key without its component lost it after its call had seen it, by a rollback or by a deletion before the insert |
| Interleaving.KeyUnderDeletedAccount | auth/internal/store/accounts.go:186-235 | every active key under a deleted account was inserted after the deletion by a call that had seen the account active before it |
| Interleaving.DeletionLastsIff | auth/internal/store/accounts.go:131-180 | over any such run a deleted account stays deleted if and only if no PATCH that gives a status writes to it after its deletion |
| Interleaving.RevivalIsTraced | auth/internal/handler/accounts.go:318-415 | every such write is of a PATCH that looked the account up before the deletion |
| Database.SQLiteStore.DeleteComponentWithRevoke | auth/internal/store/sqlite.go:671-704 | component and active keys go together, or nothing changes; the count is the number of keys revoked |
| Database.SQLiteStore.DeleteAccountWithCascade | auth/internal/store/accounts.go:186-235 | the account is marked and its active keys revoked together; legacy and hidden accounts are refused |
| Database.SQLiteStore.UpdateAccount | auth/internal/store/accounts.go:131-180 | given fields replace, others stay; each refusal leaves the table as it was |
| Database.SQLiteStore.CreateKeyForAccount | auth/internal/store/accounts.go:279-305 | an active key is added when the account row exists, whatever its status; a clash of ids gets the error the classifier gives it |
| Database.SQLiteStore.UpdateComponent | auth/internal/store/sqlite.go:712-776 | read, patch and write in one transaction |
| Database.SQLiteStore.CreateComponent | auth/internal/store/sqlite.go:537-580 | a missing visibility becomes private; a taken name or unknown visibility is refused |
| Database.SQLiteStore.DeleteComponent | auth/internal/store/sqlite.go:626-640 | only the component row goes |
| Database.SQLiteStore.RevokeKey | auth/internal/store/sqlite.go:450-464 | an existing key is inactive afterwards, revoked before or not |
| Database.SQLiteStore.IncrementUsage | auth/internal/store/sqlite.go:467-480 | one key's count goes up by one |
| AdminApi.Handlers.CreateKey | auth/internal/handler/keys.go:209-285 | the handler's checks and insert are one lifecycle step, with its status; without an account store it is the bare insert of legacy's key |
| AdminApi.Handlers.IssueKey | auth/internal/handler/accounts.go:533-618 | likewise for a key issued under an account |
| AdminApi.Handlers.DeleteKey | auth/internal/handler/keys.go:130-167 | likewise for a revocation |
| AdminApi.Handlers.PatchAccount | auth/internal/handler/accounts.go:318-415 | likewise for an account PATCH |
| AdminApi.Handlers.DeleteAccount | auth/internal/handler/accounts.go:418-490 | likewise for a deletion, with the impact preview counting exactly the account's active keys |
| AdminApi.Handlers.DeleteComponent | auth/internal/handler/components.go:206-281 | likewise for a component, with its preview |
| AdminApi.Handlers.CreateComponent | auth/internal/handler/components.go:71-155 | likewise for a creation with a trimmed name and provisioning |
| AdminApi.Handlers.PatchComponent | auth/internal/handler/components.go:283-417 | likewise for a component PATCH |
| ForwardAuth.AllowsExactlyTheAdmitted | auth/internal/handler/forward_auth.go:56-199 | with every read working a request gets 200 exactly when it is a GET or HEAD of a served path whose component is public, or private with a live key of that component under an active account |
| ForwardAuth.FailsClosed | auth/internal/handler/forward_auth.go:56-199 | no failing read lets in what working reads would refuse |
| ForwardAuth.CachedReadIsDirect | auth/internal/store/cached_components.go:94-126 | with no unevicted write and no running lookup of the name, a call that runs by itself reads it as from the table, and a live entry is public there |
| ForwardAuth.CachedRefinesDirect | auth/internal/handler/forward_auth.go:56-199 | a request that runs by itself, with no write between commit and evict and no shared lookup running for its component, gets the uncached status; when component reads fail the two differ exactly on live cached components, 200 for 503 |
| ForwardAuth.DecidedAsOfSomeMoment | auth/internal/handler/forward_auth.go:56-199 | over every interleaving, a request that begins in a state in which its component's entry and running lookup are current is decided as the uncached service would decide it at some moment of the run, a failed lookup as a failed read |
| ForwardAuth.ConcurrentCachedIsDirect | auth/internal/handler/forward_auth.go:56-199 | so while the component's row stays as it is, whatever runs beside it, the status is exactly the uncached one |
| ForwardAuth.LateJoinerIsLetIn | auth/internal/handler/forward_auth.go:56-199 | being current is needed: for every public component there is a run to a state that is not, from which a request begun after the component's deletion was evicted gets 200 and the uncached service answers 401 |
| ForwardAuth.DeletedComponentStaysShut | auth/internal/handler/forward_auth.go:56-199 | no key of a deleted component ever opens a private one of the same name |
| ForwardAuth.SuspensionShutsAndReopens | auth/internal/handler/forward_auth.go:56-199 | after suspending an account its keys open nothing private, and reactivating it restores the very same database, so every answer |
| ForwardAuth.SuspendedKeysAreShut | auth/internal/handler/forward_auth.go:56-199 | a request with a suspended account's key is allowed only for a public component |
| ForwardAuth.Handler.ServeHTTP | auth/internal/handler/forward_auth.go:56-199 | the status of the decision function, and exactly the opening key's usage counted |
| RequestPath.ExtractsExactlyTheServed | auth/internal/handler/forward_auth.go:241-268 | after one optional slash exactly rpm/c, deb/c and oci/v2/c with a non-empty slash-free c are accepted, and c is returned |
| RequestPath.ExtractInvertsBuild | auth/internal/handler/forward_auth.go:241-268 | so it inverts building a path, with any continuation |
| RequestPath.PingNamesNothing | auth/internal/handler/forward_auth.go:217-236 | no registry ping names a component |
| RequestPath.IsHex | auth/internal/handler/forward_auth.go:203-211 | true exactly when every character is a hex digit |
| Migration.MigrationConverges | auth/internal/store/sqlite.go:146-230 | from no column, a nullable or a NOT NULL one, with power cuts after any statement and any number of restarts, the first completed start-up leaves what an undisturbed one leaves, indexes and leftover table included |
| Migration.FurtherStartsChangeNothing | auth/internal/store/sqlite.go:188-230 | after that no start-up, whole or cut, changes anything or fails |
| Migration.NothingIsLost | auth/internal/store/sqlite.go:276-332 | every row, field and owner is kept, NULL owners become legacy, the column is NOT NULL |
| Migration.RebuildIs | auth/internal/store/sqlite.go:304-328 | the seven statements of the transaction together: same rows under NOT NULL, no leftover, both indexes on the new table |
| Migration.CompletesIff | auth/internal/store/sqlite.go:188-230 | an undisturbed start-up completes exactly when NULL owners have a legacy account to go to and, if it rebuilds, no key misses its owner and no other table has a foreign-key violation |
| Migration.ForeignKeyCheckRefusesOnce | auth/internal/store/sqlite.go:330-350 | with such a violation the first start-up fails after its commit and the next one completes |
| Migration.UnitAdvances | auth/internal/store/sqlite.go:193-332 | each statement, transaction or check keeps what the start-up works towards, and which of them can fail, and when |
| Migration.SQLiteFile.RebuildKeys | auth/internal/store/sqlite.go:276-332 | the loop over statements gives the whole rebuild, and a cut inside the transaction nothing |
| Migration.SQLiteFile.Open | auth/internal/store/sqlite.go:124-230 | schema, seed, probe and the branches it selects run the plan |
| Paging.WalkIsTheList | auth/internal/handler/accounts.go:277-290 | for every list, limit, offset and filters, following next links ends and the pages concatenate to the rest of the list, each row once; from the end on that is one empty page |
| Paging.NextIs | auth/internal/handler/accounts.go:134-151 | a next link is printed exactly when rows remain and never overflows 64 bits |
| Paging.PrevUndoesNext | auth/internal/handler/accounts.go:99-162 | prev returns to the page that next left, links and filters included |
| Paging.NextUndoesPrevIff | auth/internal/handler/accounts.go:152-158 | next undoes prev exactly when the page began at least one full page into the list |
| Paging.LinkQueryIs | auth/internal/handler/accounts.go:99-146 | what is printed into a link is parsed back as the same offset and limit |
| Paging.ReadInvertsWritten | auth/internal/handler/accounts.go:136-146 | the parameters of a link read back as its offset, its limit and the request's filters |
| PageWalk.ClientGetsTheList | auth/internal/admin-ui/src/api/client.ts:109-147 | end to end: a client that reads each page's header and sends the next target's query back collects exactly the list from its offset on, each row once |
| PageWalk.NextRequestIsTheLink | auth/internal/handler/accounts.go:134-162 | what the client sends next is read by the server as the query the link was built from, filters included |
| Paging.ParsePaging | auth/internal/handler/accounts.go:94-127 | every accepted request has an offset that fits and a limit between 1 and 500 |
| LinkHeader.HeaderRoundTripsIff | auth/internal/admin-ui/src/api/client.ts:134-147 | the client recovers exactly the next and prev targets the server printed if and only if none is empty, contains a closing bracket, or has a comma, spaces and an opening bracket in a row (section 5 of RFC 5988) |
| LinkHeader.PageLinksRoundTrip | auth/internal/handler/accounts.go:134-183 | so every page link survives, whatever path and encoded query without angle brackets |
| LinkHeader.ParsedIsReadable | auth/internal/admin-ui/src/api/client.ts:134-147 | whatever header arrives, a target the client reads is one it could have been sent |
| LinkHeader.JoinLinks | auth/internal/handler/accounts.go:177-183 | the loop joins the links in order with a comma and a space |
| LinkHeader.PreserveQueryExceptPaging | auth/internal/handler/accounts.go:166-175 | the loop keeps exactly the parameters that are not for paging |
| LinkHeader.WritePaginationLinks | auth/internal/handler/accounts.go:134-162 | the header printed is the one the round trip is about |
| LinkHeader.ParseLinkHeader | auth/internal/admin-ui/src/api/client.ts:134-147 | the loop over parts reads what the parsing function says |

## Left out

- SQL text, the SQLite driver, JSON, HTTP plumbing, cookies, routing, metrics and logs: tables are maps, transactions and statements are atomic steps, responses are status values or error codes.
- Random values and hashing (ids, states, verifiers, PKCE): drawn values are parameters; key, session and account ids that clash are refused as the primary keys do.
- The GitHub and Microsoft providers: Exchange is an arbitrary result.
- CSRF checks, admin-host parsing and ClientIP: they rest on parsers that are not part of this model.
- Email canonicalisation and mail.ParseAddress: emails are taken as already canonical, and whether one parses is a parameter.
- The role gates and JSON validation in front of the handlers: a request they refuse changes nothing.
- Audit rows other than the limiter's, log sanitising, truncation, rpmTargets: easy members that add little.
- Filesystem provisioning: initRPMTree succeeds or fails.
- React routes, landing page, documentation site, scripts and deployment files: not part of this model.
- An inner component write that returns an error is taken to have changed nothing.
- Go's float64 is `real`, so rounding is not modelled; durations do not saturate and times are not bounded.
- nil and empty lists are told apart only in the cache object's heap records.
- Times in RFC 3339 columns are compared as numbers; the text order agrees for years 0 to 9999 in UTC.
- ListKeys orders by a column with ties, so the page-walk theorems do not apply to it.
- url.Values.Encode and its inverse: LinkHeader takes the encoded query as an arbitrary string and says for which strings the header works; PageWalk assumes that the two invert each other on parameters with a value and escape angle brackets. net/http's replacement of line breaks in header values is not modelled.
- The two best-effort operator updates after a login are in LoginObject, not in the interleaved machine of Login.
- A rollback in component Create that fails itself, so that the row stays: provisioning fails or succeeds, the delete after it reaches the store.
- A browser's resolution of a link target: PageWalk takes the query to be what follows the first question mark, of a path without one.
- ForwardAuth.Handler.ServeHTTP: does not model a handler without an account store, which skips the account check, because the constructor refuses to build one (`forward_auth.go:41-45`).
