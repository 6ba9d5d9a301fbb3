/**
 The admin handlers with their reads and their writes apart, so that any number of calls interleave between
 transactions: what still holds, and exactly what it takes to break the rest.
 */
module Interleaving {
  import opened Wrappers
  import opened Components
  import opened Database
  import opened Lifecycle

  datatype KeyRequest = KeyRequest(key: string, account: string, component: string, keyLabel: string,
      expiresAt: Option<int>)

  /** Between a call's transactions: what it has seen, or inserted and may have to take back. */
  datatype Progress =
    | AccountSeen(request: KeyRequest)
    | ComponentSeen(request: KeyRequest)
    | PatchSeen(account: string, update: AccountUpdate)
    | Provisioning(name: string)

  datatype State = State(db: DB, calls: map<nat, Progress>)

  /** Calls whose one transaction checks again whatever they read before it. */
  datatype Single =
    | NewAccount(id: string, email: string, org: string)
    | DropAccount(id: string)
    | DropComponent(name: string)
    | EditComponent(name: string, patch: Patch)
    | Revoke(key: string)
    | Count(key: string)

  datatype Action =
    | SeeAccount(call: nat, request: KeyRequest)
    | SeeComponent(call: nat)
    | InsertKey(call: nat)
    | SeePatch(call: nat, account: string, update: AccountUpdate)
    | WritePatch(call: nat)
    | AddComponent(call: nat, comp: Component)
    | Provision(call: nat, diskOk: bool)
    | Commit(single: Single)
    | Abandon(call: nat)

  function Kept(db: DB, r: Result<DB, Error>): DB {
    if r.Ok? then r.value else db
  }

  function Committed(db: DB, s: Single): DB {
    Kept(db,
         match s
         case NewAccount(id, email, org) => AccountCreated(db, id, email, org)
         case DropAccount(id) => AccountDeleted(db, id)
         case DropComponent(name) => ComponentDeletedWithRevoke(db, name)
         case EditComponent(name, p) => ComponentUpdated(db, name, p)
         case Revoke(key) => RevokedKey(db, key)
         case Count(key) => UsageIncremented(db, key))
  }

  function Insertion(db: DB, r: KeyRequest): Result<DB, Error> {
    KeyCreated(db, r.key, r.account, r.component, r.keyLabel, r.expiresAt)
  }

  predicate AccountActive(db: DB, id: string) {
    id in db.accounts && db.accounts[id].status.Active?
  }

  function Ended(st: State, call: nat, db: DB): State {
    State(db, st.calls - {call})
  }

  function Moved(st: State, call: nat, p: Progress): State {
    st.(calls := st.calls[call := p])
  }

  function Step(st: State, a: Action): State {
    match a
    case SeeAccount(call, r) =>
      if call !in st.calls && AccountActive(st.db, r.account) then Moved(st, call, AccountSeen(r)) else st
    case SeeComponent(call) =>
      if call !in st.calls || !st.calls[call].AccountSeen? then st
      else if st.calls[call].request.component in st.db.components
      then Moved(st, call, ComponentSeen(st.calls[call].request))
      else Ended(st, call, st.db)
    case InsertKey(call) =>
      if call !in st.calls || !st.calls[call].ComponentSeen? then st
      else Ended(st, call, Kept(st.db, Insertion(st.db, st.calls[call].request)))
    case SeePatch(call, id, u) =>
      if call !in st.calls && GetAccount(st.db, id).Ok? then Moved(st, call, PatchSeen(id, u)) else st
    case WritePatch(call) =>
      if call !in st.calls || !st.calls[call].PatchSeen? then st
      else Ended(st, call, Kept(st.db, AccountUpdated(st.db, st.calls[call].account, st.calls[call].update)))
    case AddComponent(call, c) =>
      var created := ComponentCreated(st.db, c);
      if call in st.calls || created.Err? then st
      else State(created.value, st.calls[call := Provisioning(c.name)])
    case Provision(call, diskOk) =>
      if call !in st.calls || !st.calls[call].Provisioning? then st
      else Ended(st, call, if diskOk then st.db else Kept(st.db, ComponentDeleted(st.db, st.calls[call].name)))
    case Commit(s) => st.(db := Committed(st.db, s))
    case Abandon(call) => Ended(st, call, st.db)
  }

  function Run(st: State, acts: seq<Action>): State
    decreases |acts|
  {
    if acts == [] then st else Step(Run(st, acts[..|acts| - 1]), acts[|acts| - 1])
  }

  // ---- What no interleaving breaks ----

  /** Every key has its account's row, legacy is active, emails are valid and unique. */
  ghost predicate Rooted(db: DB) {
    && AccountActive(db, LEGACY) && EmailsSound(db)
    && forall k | k in db.keys :: db.keys[k].account in db.accounts
  }

  /** No account or key row goes, no key changes hands, and no revoked key comes back. */
  ghost predicate Onward(a: DB, b: DB) {
    && (forall id | id in a.accounts :: id in b.accounts)
    && (forall k | k in a.keys ::
          && k in b.keys && b.keys[k].account == a.keys[k].account && b.keys[k].component == a.keys[k].component
          && (b.keys[k].active ==> a.keys[k].active))
  }

  lemma PutKeepsRoots(db: DB, id: string, a: Account)
    requires Rooted(db) && ValidEmail(a.email) && !EmailTaken(db, a.email, id) && (id == LEGACY ==> a.status.Active?)
    ensures Rooted(db.(accounts := db.accounts[id := a]))
  {
    PutKeepsEmails(db, id, a);
  }

  lemma PatchKeepsRoots(db: DB, id: string, u: AccountUpdate)
    requires Rooted(db)
    ensures Rooted(Kept(db, AccountUpdated(db, id, u))) && Onward(db, Kept(db, AccountUpdated(db, id, u)))
  {
    var after := Kept(db, AccountUpdated(db, id, u));
    if after != db {
      PutKeepsRoots(db, id, after.accounts[id]);
    }
  }

  lemma SameAccountsSameRoots(db: DB, after: DB)
    requires Rooted(db) && after.accounts == db.accounts
    requires forall k | k in after.keys :: after.keys[k].account in db.accounts
    ensures Rooted(after)
  {
    forall id | id in after.accounts
      ensures ValidEmail(after.accounts[id].email) && !EmailTaken(after, after.accounts[id].email, id)
    {
      assert !EmailTaken(db, db.accounts[id].email, id);
    }
  }

  lemma AccountSinglesKeepRoots(db: DB, s: Single)
    requires Rooted(db) && (s.NewAccount? || s.DropAccount?)
    ensures Rooted(Committed(db, s)) && Onward(db, Committed(db, s))
  {
    var after := Committed(db, s);
    if after != db {
      var accounts := db.(accounts := db.accounts[s.id := after.accounts[s.id]]);
      PutKeepsRoots(db, s.id, after.accounts[s.id]);
      SameAccountsSameRoots(accounts, after);
    }
  }

  lemma OtherSinglesMoveOnward(db: DB, s: Single)
    requires !s.NewAccount? && !s.DropAccount?
    ensures var after := Committed(db, s);
            after.accounts == db.accounts && after.keys.Keys == db.keys.Keys && Onward(db, after)
  {
  }

  lemma OtherSinglesKeepRoots(db: DB, s: Single)
    requires Rooted(db) && !s.NewAccount? && !s.DropAccount?
    ensures Rooted(Committed(db, s)) && Onward(db, Committed(db, s))
  {
    OtherSinglesMoveOnward(db, s);
    SameAccountsSameRoots(db, Committed(db, s));
  }

  lemma InsertKeepsRoots(db: DB, r: KeyRequest)
    requires Rooted(db)
    ensures Rooted(Kept(db, Insertion(db, r))) && Onward(db, Kept(db, Insertion(db, r)))
  {
    SameAccountsSameRoots(db, Kept(db, Insertion(db, r)));
  }

  lemma ComponentStepsKeepRoots(st: State, a: Action)
    requires Rooted(st.db) && (a.AddComponent? || a.Provision?)
    ensures Rooted(Step(st, a).db) && Onward(st.db, Step(st, a).db)
  {
    SameAccountsSameRoots(st.db, Step(st, a).db);
  }

  lemma StepKeepsRoots(st: State, a: Action)
    requires Rooted(st.db)
    ensures Rooted(Step(st, a).db) && Onward(st.db, Step(st, a).db)
  {
    match a {
      case Commit(s) =>
        if s.NewAccount? || s.DropAccount? {
          AccountSinglesKeepRoots(st.db, s);
        } else {
          OtherSinglesKeepRoots(st.db, s);
        }
      case WritePatch(call) =>
        if call in st.calls && st.calls[call].PatchSeen? {
          PatchKeepsRoots(st.db, st.calls[call].account, st.calls[call].update);
        }
      case InsertKey(call) =>
        if call in st.calls && st.calls[call].ComponentSeen? {
          InsertKeepsRoots(st.db, st.calls[call].request);
        }
      case AddComponent(_, _) => ComponentStepsKeepRoots(st, a);
      case Provision(_, _) => ComponentStepsKeepRoots(st, a);
      case _ => assert Step(st, a).db == st.db;
    }
  }

  /**
   Over every interleaving: keys keep their account row, their owner and their component, and stay revoked once
   revoked.
   */
  lemma {:induction false} RootsSurvive(st: State, acts: seq<Action>)
    requires Rooted(st.db)
    ensures Rooted(Run(st, acts).db) && Onward(st.db, Run(st, acts).db)
    decreases |acts|
  {
    if acts != [] {
      RootsSurvive(st, acts[..|acts| - 1]);
      StepKeepsRoots(Run(st, acts[..|acts| - 1]), acts[|acts| - 1]);
    }
  }

  // ---- Exactly what breaks the rest ----

  /**
   The two steps whose handler looked too early: an insert whose component has gone or whose account has been
   deleted since, and a rollback of a component that has got keys since.
   */
  ghost predicate Safe(st: State, a: Action) {
    match a
    case InsertKey(call) =>
      call in st.calls && st.calls[call].ComponentSeen? && Insertion(st.db, st.calls[call].request).Ok? ==>
        var r := st.calls[call].request;
        r.component in st.db.components && !st.db.accounts[r.account].status.Deleted?
    case Provision(call, diskOk) =>
      call in st.calls && st.calls[call].Provisioning? && !diskOk && st.calls[call].name in st.db.components ==>
        ActiveKeysOfComponent(st.db.keys, st.calls[call].name) == {}
    case _ => true
  }

  lemma PatchKeepsKeys(db: DB, id: string, u: AccountUpdate)
    requires KeysSound(db)
    ensures KeysSound(Kept(db, AccountUpdated(db, id, u)))
  {
  }

  lemma SingleKeepsKeys(db: DB, s: Single)
    requires KeysSound(db)
    ensures KeysSound(Committed(db, s))
  {
  }

  lemma InsertIsSoundIff(db: DB, r: KeyRequest)
    requires KeysSound(db) && Insertion(db, r).Ok?
    ensures KeysSound(Insertion(db, r).value) <==>
            r.component in db.components && !db.accounts[r.account].status.Deleted?
  {
    var after := Insertion(db, r).value;
    assert KeyAlive(after, after.keys[r.key]) <==>
           r.component in db.components && !db.accounts[r.account].status.Deleted?;
    forall id | id in db.keys ensures KeyAlive(after, after.keys[id]) {
      assert KeyAlive(db, db.keys[id]);
    }
  }

  lemma RollbackIsSoundIff(db: DB, name: string)
    requires KeysSound(db) && name in db.components
    ensures KeysSound(ComponentDeleted(db, name).value) <==> ActiveKeysOfComponent(db.keys, name) == {}
  {
    var after := ComponentDeleted(db, name).value;
    if k :| k in ActiveKeysOfComponent(db.keys, name) {
      assert !KeyAlive(after, after.keys[k]);
    } else {
      forall id | id in db.keys ensures KeyAlive(after, after.keys[id]) {
        assert id !in ActiveKeysOfComponent(db.keys, name) && KeyAlive(db, db.keys[id]);
      }
    }
  }

  lemma StepIsSoundIff(st: State, a: Action)
    requires KeysSound(st.db)
    ensures KeysSound(Step(st, a).db) <==> Safe(st, a)
  {
    match a {
      case InsertKey(call) =>
        if call in st.calls && st.calls[call].ComponentSeen? && Insertion(st.db, st.calls[call].request).Ok? {
          InsertIsSoundIff(st.db, st.calls[call].request);
        }
      case Provision(call, diskOk) =>
        if call in st.calls && st.calls[call].Provisioning? && !diskOk && st.calls[call].name in st.db.components {
          RollbackIsSoundIff(st.db, st.calls[call].name);
        }
      case WritePatch(call) =>
        if call in st.calls && st.calls[call].PatchSeen? {
          PatchKeepsKeys(st.db, st.calls[call].account, st.calls[call].update);
        }
      case Commit(s) => SingleKeepsKeys(st.db, s);
      case _ =>
    }
  }

  ghost predicate SoundUpTo(st: State, acts: seq<Action>) {
    forall n | 0 <= n <= |acts| :: KeysSound(Run(st, acts[..n]).db)
  }

  ghost predicate SafeUpTo(st: State, acts: seq<Action>) {
    forall n | 0 <= n < |acts| :: Safe(Run(st, acts[..n]), acts[n])
  }

  lemma SoundGrows(st: State, acts: seq<Action>, a: Action)
    ensures SoundUpTo(st, acts + [a]) <==> SoundUpTo(st, acts) && KeysSound(Run(st, acts + [a]).db)
  {
    var more := acts + [a];
    assert more[..|more|] == more;
    forall n | 0 <= n <= |acts| ensures more[..n] == acts[..n] {}
    if SoundUpTo(st, more) {
      forall n | 0 <= n <= |acts| ensures KeysSound(Run(st, acts[..n]).db) {
        assert KeysSound(Run(st, more[..n]).db);
      }
    }
  }

  lemma SafeGrows(st: State, acts: seq<Action>, a: Action)
    ensures SafeUpTo(st, acts + [a]) <==> SafeUpTo(st, acts) && Safe(Run(st, acts), a)
  {
    var more := acts + [a];
    assert more[..|acts|] == acts;
    forall n | 0 <= n <= |acts| ensures more[..n] == acts[..n] {}
    if SafeUpTo(st, more) {
      forall n | 0 <= n < |acts| ensures Safe(Run(st, acts[..n]), acts[n]) {
        assert Safe(Run(st, more[..n]), more[n]);
      }
      assert Safe(Run(st, more[..|acts|]), more[|acts|]);
    }
  }

  /**
   Over every interleaving: active keys keep their component and an undeleted account all along exactly when
   no step looked too early.
   */
  lemma {:induction false} SoundThroughoutIff(st: State, acts: seq<Action>)
    requires KeysSound(st.db)
    ensures SoundUpTo(st, acts) <==> SafeUpTo(st, acts)
    decreases |acts|
  {
    if acts == [] {
      assert Run(st, acts[..0]) == st;
    } else {
      var before, a := acts[..|acts| - 1], acts[|acts| - 1];
      assert acts == before + [a];
      SoundThroughoutIff(st, before);
      SoundGrows(st, before, a);
      SafeGrows(st, before, a);
      RunGrows(st, before, a);
      if SoundUpTo(st, before) {
        assert before[..|before|] == before;
        assert KeysSound(Run(st, before[..|before|]).db);
        StepIsSoundIff(Run(st, before), a);
      }
    }
  }

  // ---- How a dead key comes about ----

  lemma RunGrows(st: State, acts: seq<Action>, a: Action)
    ensures Run(st, acts + [a]) == Step(Run(st, acts), a)
  {
    assert (acts + [a])[..|acts + [a]| - 1] == acts;
  }

  /** At step h the call saw the account active. */
  ghost predicate SawAccount(st: State, acts: seq<Action>, call: nat, r: KeyRequest, h: nat) {
    h < |acts| && acts[h] == SeeAccount(call, r) && AccountActive(Run(st, acts[..h]).db, r.account)
  }

  /** And at step i the component. */
  ghost predicate SawBoth(st: State, acts: seq<Action>, call: nat, r: KeyRequest, h: nat, i: nat) {
    && SawAccount(st, acts, call, r, h) && h < i < |acts|
    && acts[i] == SeeComponent(call) && r.component in Run(st, acts[..i]).db.components
  }

  /** At step h the call of a PATCH saw the account, not deleted. */
  ghost predicate SawPatch(st: State, acts: seq<Action>, call: nat, id: string, u: AccountUpdate, h: nat) {
    && h < |acts| && acts[h] == SeePatch(call, id, u)
    && id in Run(st, acts[..h]).db.accounts && !GoneAccount(Run(st, acts[..h]).db, id)
  }

  /** What a call with several transactions has behind it. */
  ghost predicate CallTraced(st: State, acts: seq<Action>, call: nat) {
    var s := Run(st, acts);
    call in s.calls ==>
      match s.calls[call]
      case AccountSeen(r) => exists h: nat :: SawAccount(st, acts, call, r, h)
      case ComponentSeen(r) => exists h: nat, i: nat :: SawBoth(st, acts, call, r, h, i)
      case PatchSeen(id, u) => exists h: nat :: SawPatch(st, acts, call, id, u, h)
      case _ => true
  }

  lemma StillSawAccount(st: State, acts: seq<Action>, a: Action, call: nat, r: KeyRequest, h: nat)
    requires SawAccount(st, acts, call, r, h)
    ensures SawAccount(st, acts + [a], call, r, h)
  {
    assert (acts + [a])[..h] == acts[..h];
  }

  lemma StillSawBoth(st: State, acts: seq<Action>, a: Action, call: nat, r: KeyRequest, h: nat, i: nat)
    requires SawBoth(st, acts, call, r, h, i)
    ensures SawBoth(st, acts + [a], call, r, h, i)
  {
    StillSawAccount(st, acts, a, call, r, h);
    assert (acts + [a])[..i] == acts[..i];
  }

  lemma PatchIsTraced(st: State, acts: seq<Action>, a: Action, call: nat)
    requires CallTraced(st, acts, call)
    requires call in Run(st, acts + [a]).calls && Run(st, acts + [a]).calls[call].PatchSeen?
    ensures CallTraced(st, acts + [a], call)
  {
    RunGrows(st, acts, a);
    assert (acts + [a])[..|acts|] == acts;
    var s, p := Run(st, acts), Run(st, acts + [a]).calls[call];
    if call in s.calls {
      var h: nat :| SawPatch(st, acts, call, p.account, p.update, h);
      assert (acts + [a])[..h] == acts[..h];
      assert SawPatch(st, acts + [a], call, p.account, p.update, h);
    } else {
      assert SawPatch(st, acts + [a], call, p.account, p.update, |acts|);
    }
  }

  lemma StepKeepsTrace(st: State, acts: seq<Action>, a: Action, call: nat)
    requires CallTraced(st, acts, call)
    ensures CallTraced(st, acts + [a], call)
  {
    RunGrows(st, acts, a);
    var s, s' := Run(st, acts), Run(st, acts + [a]);
    assert (acts + [a])[..|acts|] == acts;
    if call in s'.calls && s'.calls[call].AccountSeen? {
      var r := s'.calls[call].request;
      if call in s.calls && s.calls[call] == s'.calls[call] {
        var h: nat :| SawAccount(st, acts, call, r, h);
        StillSawAccount(st, acts, a, call, r, h);
      } else {
        assert SawAccount(st, acts + [a], call, r, |acts|);
      }
    } else if call in s'.calls && s'.calls[call].ComponentSeen? {
      var r := s'.calls[call].request;
      if s.calls[call] == s'.calls[call] {
        var h: nat, i: nat :| SawBoth(st, acts, call, r, h, i);
        StillSawBoth(st, acts, a, call, r, h, i);
      } else {
        var h: nat :| SawAccount(st, acts, call, r, h);
        StillSawAccount(st, acts, a, call, r, h);
        assert SawBoth(st, acts + [a], call, r, h, |acts|);
      }
    } else if call in s'.calls && s'.calls[call].PatchSeen? {
      PatchIsTraced(st, acts, a, call);
    }
  }

  lemma {:induction false} CallsAreTraced(st: State, acts: seq<Action>, call: nat)
    requires st.calls == map[]
    ensures CallTraced(st, acts, call)
    decreases |acts|
  {
    if acts != [] {
      var before := acts[..|acts| - 1];
      CallsAreTraced(st, before, call);
      StepKeepsTrace(st, before, acts[|acts| - 1], call);
      assert before + [acts[|acts| - 1]] == acts;
    }
  }

  /** At step m a call that had seen both inserted the key. */
  ghost predicate InsertedAt(st: State, acts: seq<Action>, k: string, m: nat) {
    && m < |acts| && acts[m].InsertKey?
    && k !in Run(st, acts[..m]).db.keys && k in Run(st, acts[..m + 1]).db.keys
  }

  lemma OnlyInsertsAddKeys(st: State, a: Action, k: string)
    requires k !in st.db.keys && k in Step(st, a).db.keys
    ensures a.InsertKey? && a.call in st.calls && st.calls[a.call].ComponentSeen?
    ensures var r := st.calls[a.call].request;
            && r.key == k && Step(st, a).db.keys[k] == Key(r.component, r.keyLabel, true, r.expiresAt, 0, r.account)
  {
  }

  lemma {:induction false} KeysWereInserted(st: State, acts: seq<Action>, k: string) returns (m: nat)
    requires k !in st.db.keys && k in Run(st, acts).db.keys
    ensures InsertedAt(st, acts, k, m)
    decreases |acts|
  {
    var n := |acts| - 1;
    var before := acts[..n];
    assert acts[..n + 1] == acts;
    if k in Run(st, before).db.keys {
      m := KeysWereInserted(st, before, k);
      assert before[..m] == acts[..m] && before[..m + 1] == acts[..m + 1];
    } else {
      m := n;
      OnlyInsertsAddKeys(Run(st, before), acts[n], k);
    }
  }

  lemma {:induction false} RunsConcatenate(st: State, a: seq<Action>, b: seq<Action>)
    ensures Run(st, a + b) == Run(Run(st, a), b)
    decreases |b|
  {
    if b == [] {
      assert a + b == a;
    } else {
      RunsConcatenate(st, a, b[..|b| - 1]);
      assert (a + b)[..|a + b| - 1] == a + b[..|b| - 1];
    }
  }

  /** Between two points of a run nothing in Onward is taken back. */
  lemma OnwardFrom(st: State, acts: seq<Action>, n: nat)
    requires Rooted(st.db) && n <= |acts|
    ensures Rooted(Run(st, acts[..n]).db) && Onward(Run(st, acts[..n]).db, Run(st, acts).db)
  {
    RootsSurvive(st, acts[..n]);
    RootsSurvive(Run(st, acts[..n]), acts[n..]);
    RunsConcatenate(st, acts[..n], acts[n..]);
    assert acts[..n] + acts[n..] == acts;
  }

  /** The inserting step's call had seen both, and the key still has what it was inserted with. */
  lemma InsertionIsTraced(st: State, acts: seq<Action>, k: string, m: nat) returns (r: KeyRequest, h: nat, i: nat)
    requires st.calls == map[] && Rooted(st.db) && InsertedAt(st, acts, k, m)
    ensures r.key == k && SawBoth(st, acts[..m], acts[m].call, r, h, i)
    ensures var keys := Run(st, acts).db.keys;
            k in keys && keys[k].account == r.account && keys[k].component == r.component
  {
    var s := Run(st, acts[..m]);
    assert acts[..m + 1] == acts[..m] + [acts[m]];
    RunGrows(st, acts[..m], acts[m]);
    OnlyInsertsAddKeys(s, acts[m], k);
    CallsAreTraced(st, acts[..m], acts[m].call);
    r := s.calls[acts[m].call].request;
    h, i :| SawBoth(st, acts[..m], acts[m].call, r, h, i);
    OnwardFrom(st, acts, m + 1);
  }

  /** How a new key came to be: its call saw the account and then the component, and then inserted it with these. */
  lemma KeyWasIssued(st: State, acts: seq<Action>, k: string) returns (h: nat, i: nat, m: nat)
    requires st.calls == map[] && Rooted(st.db) && k !in st.db.keys && k in Run(st, acts).db.keys
    ensures h < i < m && InsertedAt(st, acts, k, m) && acts[h].SeeAccount?
    ensures acts[i] == SeeComponent(acts[m].call) && acts[h].call == acts[m].call && acts[h].request.key == k
    ensures var key := Run(st, acts).db.keys[k];
            && key.account == acts[h].request.account && key.component == acts[h].request.component
            && AccountActive(Run(st, acts[..h]).db, key.account)
            && key.component in Run(st, acts[..i]).db.components
  {
    m := KeysWereInserted(st, acts, k);
    var r;
    r, h, i := InsertionIsTraced(st, acts, k, m);
    assert acts[..m][..h] == acts[..h] && acts[..m][..i] == acts[..i];
  }

  lemma OnlyTheseRemove(st: State, a: Action, c: string)
    requires c in st.db.components && c !in Step(st, a).db.components
    ensures || a == Commit(DropComponent(c))
            || (a.Provision? && !a.diskOk && a.call in st.calls && st.calls[a.call] == Provisioning(c))
  {
  }

  /** Step j removes the component, and it stays removed. */
  ghost predicate RemovedAt(st: State, acts: seq<Action>, c: string, j: nat) {
    && j < |acts| && c in Run(st, acts[..j]).db.components
    && forall n | j < n <= |acts| :: c !in Run(st, acts[..n]).db.components
  }

  /** The last place where a property that does not hold at i and holds at n begins to hold. */
  lemma {:induction false} LastSwitch(holds: nat -> bool, i: nat, n: nat) returns (j: nat)
    requires i <= n && !holds(i) && holds(n)
    ensures i <= j < n && !holds(j) && forall x | j < x <= n :: holds(x)
    decreases n
  {
    if !holds(n - 1) {
      j := n - 1;
    } else {
      j := LastSwitch(holds, i, n - 1);
    }
  }

  lemma LastRemoval(st: State, acts: seq<Action>, i: nat, c: string) returns (j: nat)
    requires i <= |acts| && c in Run(st, acts[..i]).db.components && c !in Run(st, acts).db.components
    ensures i <= j && RemovedAt(st, acts, c, j)
  {
    assert acts[..|acts|] == acts;
    var without := (n: nat) => n <= |acts| && c !in Run(st, acts[..n]).db.components;
    j := LastSwitch(without, i, |acts|);
    forall n | j < n <= |acts| ensures c !in Run(st, acts[..n]).db.components {
      assert without(n);
    }
  }

  lemma RemovalIs(st: State, acts: seq<Action>, c: string, j: nat)
    requires RemovedAt(st, acts, c, j)
    ensures acts[j] == Commit(DropComponent(c)) || acts[j].Provision?
  {
    assert acts[..j + 1] == acts[..j] + [acts[j]];
    RunGrows(st, acts[..j], acts[j]);
    OnlyTheseRemove(Run(st, acts[..j]), acts[j], c);
  }

  lemma RevokingKills(st: State, acts: seq<Action>, c: string, k: string, j: nat)
    requires Rooted(st.db) && j < |acts| && acts[j] == Commit(DropComponent(c))
    requires c in Run(st, acts[..j]).db.components && k in Run(st, acts[..j]).db.keys
    requires Run(st, acts[..j]).db.keys[k].component == c
    ensures k in Run(st, acts).db.keys && !Run(st, acts).db.keys[k].active
  {
    assert acts[..j + 1] == acts[..j] + [acts[j]];
    RunGrows(st, acts[..j], acts[j]);
    OnwardFrom(st, acts, j + 1);
  }

  lemma KeyIsThereFrom(st: State, acts: seq<Action>, k: string, m: nat, j: nat)
    requires Rooted(st.db) && m < j <= |acts| && InsertedAt(st, acts, k, m)
    ensures k in Run(st, acts[..j]).db.keys && k in Run(st, acts).db.keys
    ensures Run(st, acts[..j]).db.keys[k].component == Run(st, acts).db.keys[k].component
    ensures Run(st, acts[..j]).db.keys[k].account == Run(st, acts).db.keys[k].account
  {
    assert acts[..j][..m + 1] == acts[..m + 1];
    OnwardFrom(st, acts[..j], m + 1);
    OnwardFrom(st, acts, j);
  }

  /**
   How an active key can be left without its component: the component went after its issuing call had seen
   it, by the rollback of another call's failed create, or by a revoking delete that came before the insert.
   */
  lemma KeyWithoutComponent(st: State, acts: seq<Action>, k: string) returns (i: nat, j: nat, m: nat)
    requires st.calls == map[] && Rooted(st.db) && k !in st.db.keys
    requires k in Run(st, acts).db.keys && Run(st, acts).db.keys[k].active
    requires Run(st, acts).db.keys[k].component !in Run(st, acts).db.components
    ensures i < m && i < j && InsertedAt(st, acts, k, m) && acts[i] == SeeComponent(acts[m].call)
    ensures RemovedAt(st, acts, Run(st, acts).db.keys[k].component, j)
    ensures acts[j].Provision? || (acts[j] == Commit(DropComponent(Run(st, acts).db.keys[k].component)) && j < m)
  {
    var c := Run(st, acts).db.keys[k].component;
    var h;
    h, i, m := KeyWasIssued(st, acts, k);
    j := LastRemoval(st, acts, i, c);
    RemovalIs(st, acts, c, j);
    if acts[j].Commit? && m < j {
      KeyIsThereFrom(st, acts, k, m, j);
      RevokingKills(st, acts, c, k, j);
    }
  }

  /** Step j deletes the account, and it stays deleted. */
  ghost predicate DeletedAt(st: State, acts: seq<Action>, id: string, j: nat) {
    && j < |acts| && !GoneAccount(Run(st, acts[..j]).db, id)
    && forall n | j < n <= |acts| :: GoneAccount(Run(st, acts[..n]).db, id)
  }

  ghost predicate GoneAccount(db: DB, id: string) {
    id in db.accounts && db.accounts[id].status.Deleted?
  }

  lemma OnlyDropDeletes(st: State, a: Action, id: string)
    requires !GoneAccount(st.db, id) && GoneAccount(Step(st, a).db, id)
    ensures a == Commit(DropAccount(id))
  {
  }

  lemma LastDeletion(st: State, acts: seq<Action>, h: nat, id: string) returns (j: nat)
    requires h <= |acts| && !GoneAccount(Run(st, acts[..h]).db, id) && GoneAccount(Run(st, acts).db, id)
    ensures h <= j && DeletedAt(st, acts, id, j)
  {
    assert acts[..|acts|] == acts;
    var gone := (n: nat) => n <= |acts| && GoneAccount(Run(st, acts[..n]).db, id);
    j := LastSwitch(gone, h, |acts|);
    forall n | j < n <= |acts| ensures GoneAccount(Run(st, acts[..n]).db, id) {
      assert gone(n);
    }
  }

  lemma DeletionIsDrop(st: State, acts: seq<Action>, id: string, j: nat)
    requires DeletedAt(st, acts, id, j)
    ensures acts[j] == Commit(DropAccount(id)) && GoneAccount(Run(st, acts[..j + 1]).db, id)
  {
    assert acts[..j + 1] == acts[..j] + [acts[j]];
    RunGrows(st, acts[..j], acts[j]);
    OnlyDropDeletes(Run(st, acts[..j]), acts[j], id);
  }

  lemma DeletionKills(st: State, acts: seq<Action>, id: string, k: string, j: nat)
    requires Rooted(st.db) && j < |acts| && acts[j] == Commit(DropAccount(id))
    requires !GoneAccount(Run(st, acts[..j]).db, id) && GoneAccount(Run(st, acts[..j + 1]).db, id)
    requires k in Run(st, acts[..j]).db.keys && Run(st, acts[..j]).db.keys[k].account == id
    ensures k in Run(st, acts).db.keys && !Run(st, acts).db.keys[k].active
  {
    assert acts[..j + 1] == acts[..j] + [acts[j]];
    RunGrows(st, acts[..j], acts[j]);
    OnwardFrom(st, acts, j + 1);
  }

  /**
   And under a deleted account: the account was deleted after its issuing call had seen it active and before the
   insert.
   */
  lemma KeyUnderDeletedAccount(st: State, acts: seq<Action>, k: string) returns (h: nat, j: nat, m: nat)
    requires st.calls == map[] && Rooted(st.db) && k !in st.db.keys
    requires k in Run(st, acts).db.keys && Run(st, acts).db.keys[k].active
    requires GoneAccount(Run(st, acts).db, Run(st, acts).db.keys[k].account)
    ensures h < j < m && InsertedAt(st, acts, k, m) && acts[h].SeeAccount? && acts[h].call == acts[m].call
    ensures acts[j] == Commit(DropAccount(Run(st, acts).db.keys[k].account))
  {
    var id := Run(st, acts).db.keys[k].account;
    var i;
    h, i, m := KeyWasIssued(st, acts, k);
    j := LastDeletion(st, acts, h, id);
    DeletionIsDrop(st, acts, id, j);
    if m < j {
      KeyIsThereFrom(st, acts, k, m, j);
      DeletionKills(st, acts, id, k, j);
    }
  }

  // ---- How a deleted account comes back ----

  /** The write of a PATCH that gives a status to an account deleted since it was looked up. */
  ghost predicate Revives(st: State, a: Action, id: string) {
    && a.WritePatch? && a.call in st.calls && st.calls[a.call].PatchSeen? && st.calls[a.call].account == id
    && GoneAccount(st.db, id) && st.calls[a.call].update.status.Some?
    && AccountUpdated(st.db, id, st.calls[a.call].update).Ok?
  }

  lemma StepRevivesIff(st: State, a: Action, id: string)
    requires GoneAccount(st.db, id)
    ensures !GoneAccount(Step(st, a).db, id) <==> Revives(st, a, id)
  {
  }

  lemma NextRevivesIff(st: State, acts: seq<Action>, id: string, n: nat)
    requires n < |acts| && GoneAccount(Run(st, acts[..n]).db, id)
    ensures !GoneAccount(Run(st, acts[..n + 1]).db, id) <==> Revives(Run(st, acts[..n]), acts[n], id)
  {
    assert acts[..n + 1] == acts[..n] + [acts[n]];
    RunGrows(st, acts[..n], acts[n]);
    StepRevivesIff(Run(st, acts[..n]), acts[n], id);
  }

  /** Once deleted, the account is deleted at every later point of the run. */
  ghost predicate StaysDeleted(st: State, acts: seq<Action>, id: string) {
    forall m, n | 0 <= m <= n <= |acts| && GoneAccount(Run(st, acts[..m]).db, id) ::
      GoneAccount(Run(st, acts[..n]).db, id)
  }

  lemma RevivedSomewhere(st: State, acts: seq<Action>, id: string, m: nat, n: nat) returns (k: nat)
    requires m <= n <= |acts| && GoneAccount(Run(st, acts[..m]).db, id) && !GoneAccount(Run(st, acts[..n]).db, id)
    ensures k < |acts| && Revives(Run(st, acts[..k]), acts[k], id)
  {
    var back := (x: nat) => x <= |acts| && !GoneAccount(Run(st, acts[..x]).db, id);
    k := LastSwitch(back, m, n);
    assert back(k + 1);
    NextRevivesIff(st, acts, id, k);
  }

  /** Over every interleaving: a deletion lasts exactly when no such write follows it. */
  lemma DeletionLastsIff(st: State, acts: seq<Action>, id: string)
    ensures StaysDeleted(st, acts, id) <==>
            forall k | 0 <= k < |acts| :: !Revives(Run(st, acts[..k]), acts[k], id)
  {
    if k :| 0 <= k < |acts| && Revives(Run(st, acts[..k]), acts[k], id) {
      NextRevivesIff(st, acts, id, k);
      assert GoneAccount(Run(st, acts[..k]).db, id) && !GoneAccount(Run(st, acts[..k + 1]).db, id);
    } else {
      forall m, n | 0 <= m <= n <= |acts| && GoneAccount(Run(st, acts[..m]).db, id)
        ensures GoneAccount(Run(st, acts[..n]).db, id)
      {
        if !GoneAccount(Run(st, acts[..n]).db, id) {
          var back := RevivedSomewhere(st, acts, id, m, n);
        }
      }
    }
  }

  /** And the deletion fell between the lookup and the write of the PATCH. */
  lemma RevivalIsTraced(st: State, acts: seq<Action>, id: string, m: nat) returns (h: nat, j: nat)
    requires st.calls == map[] && m < |acts| && Revives(Run(st, acts[..m]), acts[m], id)
    ensures h < j < m && acts[h].SeePatch? && acts[h].call == acts[m].call && acts[h].account == id
    ensures !GoneAccount(Run(st, acts[..h]).db, id) && acts[j] == Commit(DropAccount(id))
  {
    CallsAreTraced(st, acts[..m], acts[m].call);
    var u := Run(st, acts[..m]).calls[acts[m].call].update;
    h :| SawPatch(st, acts[..m], acts[m].call, id, u, h);
    assert acts[..m][..h] == acts[..h];
    j := LastDeletion(st, acts[..m], h, id);
    DeletionIsDrop(st, acts[..m], id, j);
  }
}
