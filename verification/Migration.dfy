/**
 The start-up migration of subscription_key to owned keys (auth/internal/store/sqlite.go), statement by
 statement, with a power cut possible after any statement and any number of restarts.
 */
module Migration {
  import opened Wrappers

  datatype Row = Row(
    component: string,
    keyLabel: string,
    active: bool,
    createdAt: string,
    expiresAt: Option<string>,
    usage: int,
    account: Option<string>)             // None is NULL, or no such column

  /** What table_info says of account_id. */
  datatype Shape = NoColumn | Nullable | NotNull

  datatype KeyTable = KeyTable(shape: Shape, rows: map<string, Row>)

  /**
   Emails of the accounts by id; subscription_key and subscription_key_old; the table each index is on; and
   whether a row of any other table names a missing parent row.
   */
  datatype DB = DB(
    accounts: map<string, string>,
    keys: Option<KeyTable>,
    leftover: Option<KeyTable>,
    indexes: map<string, string>,
    strays: bool)

  const LEGACY := "legacy"
  const LEGACY_EMAIL := "legacy@packyard.internal"
  const KEYS := "subscription_key"
  const LEFTOVER := "subscription_key_old"
  const BY_COMPONENT := "idx_subscription_key_component"
  const BY_ACCOUNT := "idx_subscription_key_account_id"

  // ---- Statements ----

  datatype Stmt =
    | CreateKeysIfMissing | CreateIndexIfMissing(name: string) | SeedLegacy
    | AddColumn | Backfill
    | DropLeftoverIfExists | RenameKeys | CreateKeys | CopyRows | DropLeftover

  function Seeded(accounts: map<string, string>): map<string, string> {
    if LEGACY in accounts || LEGACY_EMAIL in accounts.Values then accounts else accounts[LEGACY := LEGACY_EMAIL]
  }

  /** NULL owners become the legacy account. */
  function Owned(rows: map<string, Row>): map<string, Row> {
    map id | id in rows :: rows[id].(account := Some(rows[id].account.GetOr(LEGACY)))
  }

  predicate HasUnowned(rows: map<string, Row>) {
    exists id | id in rows :: rows[id].account.None?
  }

  function WithIndex(indexes: map<string, string>, name: string): map<string, string> {
    if name in indexes then indexes else indexes[name := KEYS]
  }

  function WithoutTable(indexes: map<string, string>, table: string): map<string, string> {
    map i | i in indexes && indexes[i] != table :: indexes[i]
  }

  /** Indexes follow a renamed table and keep their names. */
  function Renamed(indexes: map<string, string>): map<string, string> {
    map i | i in indexes :: if indexes[i] == KEYS then LEFTOVER else indexes[i]
  }

  /** One statement; None is an error. Foreign keys are enforced except inside the rebuild. */
  function Exec(db: DB, s: Stmt): Option<DB> {
    match s
    case CreateKeysIfMissing => Some(if db.keys.Some? then db else db.(keys := Some(KeyTable(NotNull, map[]))))
    case CreateIndexIfMissing(name) =>
      if db.keys.None? then None
      else if name in db.indexes then Some(db)
      else if name == BY_ACCOUNT && db.keys.value.shape.NoColumn? then None
      else Some(db.(indexes := WithIndex(db.indexes, name)))
    case SeedLegacy => Some(db.(accounts := Seeded(db.accounts)))
    case AddColumn =>
      if db.keys.None? || !db.keys.value.shape.NoColumn? then None
      else Some(db.(keys := Some(db.keys.value.(shape := Nullable))))
    case Backfill =>
      if db.keys.None? || db.keys.value.shape.NoColumn? then None
      else if HasUnowned(db.keys.value.rows) && LEGACY !in db.accounts then None
      else Some(db.(keys := Some(db.keys.value.(rows := Owned(db.keys.value.rows)))))
    case DropLeftoverIfExists => Some(db.(leftover := None, indexes := WithoutTable(db.indexes, LEFTOVER)))
    case RenameKeys =>
      if db.keys.None? || db.leftover.Some? then None
      else Some(db.(keys := None, leftover := db.keys, indexes := Renamed(db.indexes)))
    case CreateKeys => if db.keys.Some? then None else Some(db.(keys := Some(KeyTable(NotNull, map[]))))
    case CopyRows =>
      if db.keys.None? || db.leftover.None? || HasUnowned(db.leftover.value.rows) || db.keys.value.rows != map[]
          then None
      else Some(db.(keys := Some(db.keys.value.(rows := db.leftover.value.rows))))
    case DropLeftover =>
      if db.leftover.None? then None
      else Some(db.(leftover := None, indexes := WithoutTable(db.indexes, LEFTOVER)))
  }

  /** Statements in order, up to the first error. */
  function ExecAll(db: DB, stmts: seq<Stmt>): (DB, bool)
    decreases |stmts|
  {
    if stmts == [] then (db, true)
    else
      var (before, ok) := ExecAll(db, stmts[..|stmts| - 1]);
      if !ok then (before, false)
      else match Exec(before, stmts[|stmts| - 1])
        case Some(after) => (after, true)
        case None => (before, false)
  }

  const REBUILD := [
    DropLeftoverIfExists, RenameKeys, CreateKeys, CopyRows, DropLeftover,
    CreateIndexIfMissing(BY_COMPONENT), CreateIndexIfMissing(BY_ACCOUNT)]

  // ---- A start-up ----

  /** What commits, or fails, as one: a statement, the rebuild transaction, or the check after it. */
  datatype Unit = Plain(stmt: Stmt) | Rebuild | CheckForeignKeys

  /** What PRAGMA foreign_key_check reports: a key without its account, or a violation in any other table. */
  ghost predicate Dangling(db: DB) {
    db.strays || (db.keys.Some? && exists id | id in db.keys.value.rows ::
      var a := db.keys.value.rows[id].account; a.Some? && a.value !in db.accounts)
  }

  ghost function ExecUnit(db: DB, u: Unit): (DB, bool) {
    match u
    case Plain(s) => var r := Exec(db, s); (r.GetOr(db), r.Some?)
    case Rebuild => var (after, ok) := ExecAll(db, REBUILD); if ok then (after, true) else (db, false)
    case CheckForeignKeys => (db, !Dangling(db))
  }

  ghost function ExecUnits(db: DB, units: seq<Unit>): (DB, bool)
    decreases |units|
  {
    if units == [] then (db, true)
    else
      var (before, ok) := ExecUnits(db, units[..|units| - 1]);
      if ok then ExecUnit(before, units[|units| - 1]) else (before, false)
  }

  const OPENING := [Plain(CreateKeysIfMissing), Plain(CreateIndexIfMissing(BY_COMPONENT)), Plain(SeedLegacy)]

  /** What is left to do after the probe of the column. */
  function Rest(shape: Shape): seq<Unit> {
    var owners := [Plain(CreateIndexIfMissing(BY_ACCOUNT)), Plain(Backfill)];
    match shape
    case NoColumn => [Plain(AddColumn)] + owners + [Rebuild, CheckForeignKeys]
    case Nullable => owners + [Rebuild, CheckForeignKeys]
    case NotNull => owners
  }

  function ShapeOf(db: DB): Shape {
    if db.keys.Some? then db.keys.value.shape else NotNull
  }

  function Plan(db: DB): seq<Unit> {
    OPENING + Rest(ShapeOf(db))
  }

  datatype Outcome = Completed | Failed | Cut

  /** A start-up whose power is cut after n units; the third unit is followed by the probe. */
  ghost function Start(db: DB, n: nat): (DB, Outcome) {
    var plan := Plan(db);
    var (after, ok) := ExecUnits(db, if n <= |plan| then plan[..n] else plan);
    (after, if !ok then Failed else if n < |plan| then Cut else Completed)
  }

  ghost function Starts(db: DB, cuts: seq<nat>): DB
    decreases |cuts|
  {
    if cuts == [] then db else Start(Starts(db, cuts[..|cuts| - 1]), cuts[|cuts| - 1]).0
  }

  // ---- What it comes to ----

  ghost predicate WellFormed(db: DB) {
    db.keys.Some? ==>
      && (db.keys.value.shape.NoColumn? ==>
            forall id | id in db.keys.value.rows :: db.keys.value.rows[id].account.None?)
      && (db.keys.value.shape.NotNull? ==> !HasUnowned(db.keys.value.rows))
  }

  function RowsOf(db: DB): map<string, Row> {
    if db.keys.Some? then db.keys.value.rows else map[]
  }

  /** The table every start-up works towards. */
  function Migrated(db: DB): DB {
    var kept := if ShapeOf(db).NotNull? then db.indexes else WithoutTable(WithoutTable(db.indexes, KEYS), LEFTOVER);
    DB(Seeded(db.accounts),
       Some(KeyTable(NotNull, Owned(RowsOf(db)))),
       if ShapeOf(db).NotNull? then db.leftover else None,
       WithIndex(WithIndex(kept, BY_COMPONENT), BY_ACCOUNT),
       db.strays)
  }

  /** The start-up can own every row it has to. */
  ghost predicate Ownable(db: DB) {
    HasUnowned(RowsOf(db)) ==> LEGACY in Seeded(db.accounts)
  }

  /** Every row and every field is kept, and every owner but NULL. */
  lemma NothingIsLost(db: DB, id: string)
    requires id in RowsOf(db)
    ensures var before, after := RowsOf(db)[id], RowsOf(Migrated(db))[id];
            && after == before.(account := after.account)
            && after.account == (if before.account.Some? then before.account else Some(LEGACY))
    ensures RowsOf(Migrated(db)).Keys == RowsOf(db).Keys && ShapeOf(Migrated(db)).NotNull?
  {
    assert id in RowsOf(Migrated(db));
  }

  // ---- The rebuild transaction ----

  lemma OneMore(db: DB, stmts: seq<Stmt>, s: Stmt)
    ensures ExecAll(db, stmts + [s]) ==
            var (before, ok) := ExecAll(db, stmts);
            if ok && Exec(before, s).Some? then (Exec(before, s).value, true) else (before, false)
  {
    assert (stmts + [s])[..|stmts + [s]| - 1] == stmts;
  }

  lemma IndexesMoveAway(indexes: map<string, string>)
    ensures WithoutTable(Renamed(WithoutTable(indexes, LEFTOVER)), LEFTOVER)
            == WithoutTable(WithoutTable(indexes, KEYS), LEFTOVER)
  {
  }

  /**
   Rename, create, copy and drop give the same rows under NOT NULL; the old indexes go with the old table, so
   both are built anew.
   */
  lemma RebuildIs(db: DB)
    requires db.keys.Some? && !db.keys.value.shape.NoColumn? && !HasUnowned(db.keys.value.rows)
    ensures var bare := WithoutTable(WithoutTable(db.indexes, KEYS), LEFTOVER);
            ExecUnit(db, Rebuild) ==
            (DB(db.accounts, Some(KeyTable(NotNull, db.keys.value.rows)), None,
                WithIndex(WithIndex(bare, BY_COMPONENT), BY_ACCOUNT), db.strays), true)
  {
    var r := REBUILD;
    MovedOver(db);
    OneMore(db, r[..5], r[5]);
    OneMore(db, r[..6], r[6]);
    assert r[..5] + [r[5]] == r[..6] && r[..6] + [r[6]] == r;
  }

  lemma SetAside(db: DB)
    requires db.keys.Some?
    ensures ExecAll(db, REBUILD[..2]) ==
            (DB(db.accounts, None, db.keys, Renamed(WithoutTable(db.indexes, LEFTOVER)), db.strays), true)
  {
    var r := REBUILD;
    OneMore(db, [], r[0]);
    OneMore(db, r[..1], r[1]);
    assert [] + [r[0]] == r[..1] && r[..1] + [r[1]] == r[..2];
  }

  lemma MovedOver(db: DB)
    requires db.keys.Some? && !HasUnowned(db.keys.value.rows)
    ensures ExecAll(db, REBUILD[..5]) ==
            (DB(db.accounts, Some(KeyTable(NotNull, db.keys.value.rows)), None,
                WithoutTable(WithoutTable(db.indexes, KEYS), LEFTOVER), db.strays), true)
  {
    var r := REBUILD;
    SetAside(db);
    OneMore(db, r[..2], r[2]);
    OneMore(db, r[..3], r[3]);
    OneMore(db, r[..4], r[4]);
    assert r[..2] + [r[2]] == r[..3] && r[..3] + [r[3]] == r[..4] && r[..4] + [r[4]] == r[..5];
    IndexesMoveAway(db.indexes);
  }

  // ---- Any start-up works towards the same table ----

  /** Unit n of the plan for a table found in the given shape. */
  function UnitAt(shape: Shape, n: nat): Unit {
    var k := if shape.NoColumn? then 1 else 0;
    if n == 0 then Plain(CreateKeysIfMissing)
    else if n == 1 then Plain(CreateIndexIfMissing(BY_COMPONENT))
    else if n == 2 then Plain(SeedLegacy)
    else if n == 3 && shape.NoColumn? then Plain(AddColumn)
    else if n == 3 + k then Plain(CreateIndexIfMissing(BY_ACCOUNT))
    else if n == 4 + k then Plain(Backfill)
    else if n == 5 + k then Rebuild
    else CheckForeignKeys
  }

  lemma PlanIs(db: DB, n: nat)
    requires n < |Plan(db)|
    ensures Plan(db)[n] == UnitAt(ShapeOf(db), n)
    ensures |Plan(db)| == match ShapeOf(db) case NoColumn => 8 case Nullable => 7 case NotNull => 5
  {
  }

  /** What holds once n units have succeeded. */
  ghost predicate Stage(shape: Shape, n: nat, d: DB) {
    var k := if shape.NoColumn? then 1 else 0;
    && WellFormed(d)
    && (n >= 1 ==> d.keys.Some?)
    && (n >= 2 ==> BY_COMPONENT in d.indexes)
    && (n >= 3 ==> Seeded(d.accounts) == d.accounts)
    && (n >= 4 + k ==> BY_ACCOUNT in d.indexes)
    && (n >= 5 + k ==> !HasUnowned(RowsOf(d)))
    && ShapeOf(d) == if !shape.NotNull? && n >= 6 + k then NotNull else if shape.NoColumn? && n >= 4 then Nullable
       else shape
  }

  /** One unit: it keeps what the start-up works towards, and gets the next stage when it succeeds. */
  lemma UnitAdvances(shape: Shape, n: nat, d: DB)
    requires Stage(shape, n, d) && n < match shape case NoColumn => 8 case Nullable => 7 case NotNull => 5
    ensures var (after, ok) := ExecUnit(d, UnitAt(shape, n));
            && WellFormed(after) && Migrated(after) == Migrated(d)
            && (ok ==> Stage(shape, n + 1, after))
    ensures ExecUnit(d, UnitAt(shape, n)).1 <==>
            match UnitAt(shape, n)
            case Plain(Backfill) => Ownable(d)
            case CheckForeignKeys => !Dangling(d)
            case _ => true
  {
    var u := UnitAt(shape, n);
    if u.Rebuild? {
      RebuildIs(d);
      RebuildKeeps(d);
    } else if u == Plain(Backfill) {
      assert Owned(Owned(RowsOf(d))) == Owned(RowsOf(d));
    } else if u.Plain? && u.stmt.CreateIndexIfMissing? {
      IndexKeeps(d, u.stmt.name);
    }
  }

  lemma IndexKeeps(d: DB, name: string)
    requires name == BY_COMPONENT || name == BY_ACCOUNT
    ensures Migrated(d.(indexes := WithIndex(d.indexes, name))) == Migrated(d)
  {
    if !ShapeOf(d).NotNull? && name !in d.indexes {
      assert WithoutTable(d.indexes[name := KEYS], KEYS) == WithoutTable(d.indexes, KEYS);
    }
  }

  lemma RebuildKeeps(d: DB)
    requires d.keys.Some? && d.keys.value.shape.Nullable? && !HasUnowned(d.keys.value.rows)
    ensures Migrated(ExecUnit(d, Rebuild).0) == Migrated(d)
  {
    RebuildIs(d);
  }

  lemma OneMoreUnit(db: DB, n: nat)
    requires n < |Plan(db)|
    ensures ExecUnits(db, Plan(db)[..n + 1]) ==
            var (before, ok) := ExecUnits(db, Plan(db)[..n]);
            if ok then ExecUnit(before, UnitAt(ShapeOf(db), n)) else (before, false)
  {
    PlanIs(db, n);
    assert Plan(db)[..n + 1][..n] == Plan(db)[..n];
  }

  lemma {:induction false} PlanAdvances(db: DB, n: nat)
    requires WellFormed(db) && n <= |Plan(db)|
    ensures var (after, ok) := ExecUnits(db, Plan(db)[..n]);
            && WellFormed(after) && Migrated(after) == Migrated(db)
            && (ok ==> Stage(ShapeOf(db), n, after))
    decreases n
  {
    if n > 0 {
      PlanAdvances(db, n - 1);
      OneMoreUnit(db, n - 1);
      PlanIs(db, n - 1);
      var (before, ok) := ExecUnits(db, Plan(db)[..n - 1]);
      if ok {
        UnitAdvances(ShapeOf(db), n - 1, before);
      }
    }
  }

  /** A start-up, whole or cut, keeps what every later one works towards; a completed one is there. */
  lemma StartAdvances(db: DB, n: nat)
    requires WellFormed(db)
    ensures var (after, outcome) := Start(db, n);
            && WellFormed(after) && Migrated(after) == Migrated(db)
            && (outcome.Completed? ==> after == Migrated(db))
  {
    var plan := Plan(db);
    var m := if n <= |plan| then n else |plan|;
    assert plan[..|plan|] == plan;
    PlanAdvances(db, m);
    if Start(db, n).1.Completed? {
      PlanIs(db, 0);
      var after := Start(db, n).0;
      assert Owned(RowsOf(after)) == RowsOf(after);
    }
  }

  lemma {:induction false} StartsAdvance(db: DB, cuts: seq<nat>)
    requires WellFormed(db)
    ensures WellFormed(Starts(db, cuts)) && Migrated(Starts(db, cuts)) == Migrated(db)
    decreases |cuts|
  {
    if cuts != [] {
      StartsAdvance(db, cuts[..|cuts| - 1]);
      StartAdvances(Starts(db, cuts[..|cuts| - 1]), cuts[|cuts| - 1]);
    }
  }

  /**
   Cut the power as often as you like, anywhere: the first start-up that completes leaves what one undisturbed
   start-up leaves.
   */
  lemma MigrationConverges(db: DB, cuts: seq<nat>, n: nat)
    requires WellFormed(db) && Start(Starts(db, cuts), n).1.Completed?
    ensures Start(Starts(db, cuts), n).0 == Migrated(db)
    ensures Start(db, |Plan(db)|).1.Completed? ==> Start(Starts(db, cuts), n).0 == Start(db, |Plan(db)|).0
  {
    StartsAdvance(db, cuts);
    StartAdvances(Starts(db, cuts), n);
    StartAdvances(db, |Plan(db)|);
  }

  // ---- A migrated table stays as it is ----

  lemma {:induction false} SettledPlanDoesNothing(db: DB, n: nat)
    requires WellFormed(db) && Migrated(db) == db && n <= |Plan(db)|
    ensures ExecUnits(db, Plan(db)[..n]) == (db, true)
    decreases n
  {
    if n > 0 {
      SettledPlanDoesNothing(db, n - 1);
      PlanIs(db, n - 1);
      assert Plan(db)[..n][..n - 1] == Plan(db)[..n - 1];
    }
  }

  /** After that nothing changes any more, and no start-up fails. */
  lemma {:induction false} FurtherStartsChangeNothing(db: DB, cuts: seq<nat>, n: nat)
    requires WellFormed(db)
    ensures Starts(Migrated(db), cuts) == Migrated(db) && !Start(Migrated(db), n).1.Failed?
    decreases |cuts|
  {
    var m := Migrated(db);
    assert Owned(Owned(RowsOf(db))) == Owned(RowsOf(db));
    assert Migrated(m) == m && m.keys.Some?;
    SettledStart(m, n);
    if cuts != [] {
      FurtherStartsChangeNothing(db, cuts[..|cuts| - 1], n);
      SettledStart(m, cuts[|cuts| - 1]);
    }
  }

  lemma SettledStart(db: DB, n: nat)
    requires WellFormed(db) && Migrated(db) == db
    ensures Start(db, n) == (db, if n < |Plan(db)| then Cut else Completed)
  {
    var plan := Plan(db);
    assert plan[..|plan|] == plan;
    SettledPlanDoesNothing(db, if n <= |plan| then n else |plan|);
  }

  // ---- When a start-up completes ----

  lemma EarlyUnitsKeepRows(shape: Shape, n: nat, d: DB)
    requires Stage(shape, n, d) && n < if shape.NoColumn? then 5 else 4
    ensures var (after, ok) := ExecUnit(d, UnitAt(shape, n)); ok && RowsOf(after) == RowsOf(d)
  {
  }

  lemma {:induction false} RowsWait(db: DB, n: nat)
    requires WellFormed(db) && n <= |Plan(db)| && n <= if ShapeOf(db).NoColumn? then 5 else 4
    ensures var (after, ok) := ExecUnits(db, Plan(db)[..n]); ok && RowsOf(after) == RowsOf(db)
    decreases n
  {
    if n > 0 {
      RowsWait(db, n - 1);
      PlanAdvances(db, n - 1);
      OneMoreUnit(db, n - 1);
      EarlyUnitsKeepRows(ShapeOf(db), n - 1, ExecUnits(db, Plan(db)[..n - 1]).0);
    }
  }

  lemma RowsWaitForBackfill(db: DB, n: nat)
    requires WellFormed(db) && n <= |Plan(db)| && n <= if ShapeOf(db).NoColumn? then 5 else 4
    ensures var (after, ok) := ExecUnits(db, Plan(db)[..n]);
            ok && Stage(ShapeOf(db), n, after) && RowsOf(after) == RowsOf(db)
                && Seeded(after.accounts) == Seeded(db.accounts)
  {
    RowsWait(db, n);
    PlanAdvances(db, n);
  }

  lemma BackfillSucceedsIff(db: DB)
    requires WellFormed(db)
    ensures var n := if ShapeOf(db).NoColumn? then 6 else 5;
            n <= |Plan(db)| && (ExecUnits(db, Plan(db)[..n]).1 <==> Ownable(db))
  {
    var n := if ShapeOf(db).NoColumn? then 5 else 4;
    PlanIs(db, 0);
    RowsWaitForBackfill(db, n);
    OneMoreUnit(db, n);
    UnitAdvances(ShapeOf(db), n, ExecUnits(db, Plan(db)[..n]).0);
  }

  lemma RebuildSucceeds(db: DB)
    requires WellFormed(db) && !ShapeOf(db).NotNull? && Ownable(db)
    ensures |Plan(db)| > 0 && ExecUnits(db, Plan(db)[..|Plan(db)| - 1]).1
  {
    var n := |Plan(db)| - 2;
    PlanIs(db, 0);
    BackfillSucceedsIff(db);
    PlanAdvances(db, n);
    OneMoreUnit(db, n);
    UnitAdvances(ShapeOf(db), n, ExecUnits(db, Plan(db)[..n]).0);
  }

  /** When it rebuilds, everything is in place by the check for missing owners. */
  lemma RebuiltBeforeCheck(db: DB)
    requires WellFormed(db) && !ShapeOf(db).NotNull? && Ownable(db)
    ensures ExecUnits(db, Plan(db)) == (Migrated(db), !Dangling(Migrated(db)))
  {
    var plan, n := Plan(db), |Plan(db)| - 1;
    PlanIs(db, 0);
    RebuildSucceeds(db);
    PlanAdvances(db, n);
    var rebuilt := ExecUnits(db, plan[..n]).0;
    assert Owned(RowsOf(rebuilt)) == RowsOf(rebuilt);
    assert rebuilt == Migrated(rebuilt);
    OneMoreUnit(db, n);
    assert plan[..n + 1] == plan;
  }

  lemma {:induction false} FailureStops(db: DB, n: nat, m: nat)
    requires n <= m <= |Plan(db)| && !ExecUnits(db, Plan(db)[..n]).1
    ensures !ExecUnits(db, Plan(db)[..m]).1
    decreases m
  {
    if n < m {
      FailureStops(db, n, m - 1);
      OneMoreUnit(db, m - 1);
    }
  }

  /**
   An undisturbed start-up completes exactly when NULL owners have a legacy account to go to and, if it rebuilds,
   no owner is missing.
   */
  lemma CompletesIff(db: DB)
    requires WellFormed(db)
    ensures Start(db, |Plan(db)|).1.Completed? <==>
            Ownable(db) && (ShapeOf(db).NotNull? || !Dangling(Migrated(db)))
  {
    var plan := Plan(db);
    assert plan[..|plan|] == plan;
    PlanIs(db, 0);
    BackfillSucceedsIff(db);
    if !Ownable(db) {
      FailureStops(db, if ShapeOf(db).NoColumn? then 6 else 5, |plan|);
    } else if !ShapeOf(db).NotNull? {
      RebuiltBeforeCheck(db);
    }
  }

  /**
   The check for missing owners comes after the commit, so it refuses once: the next start-up finds NOT NULL and
   completes.
   */
  lemma ForeignKeyCheckRefusesOnce(db: DB)
    requires WellFormed(db) && Ownable(db) && !ShapeOf(db).NotNull? && Dangling(Migrated(db))
    ensures var first := Start(db, |Plan(db)|);
            first.1.Failed? && Start(first.0, |Plan(first.0)|) == (first.0, Completed)
  {
    var plan := Plan(db);
    assert plan[..|plan|] == plan;
    RebuiltBeforeCheck(db);
    FurtherStartsChangeNothing(db, [], 0);
    assert Owned(Owned(RowsOf(db))) == Owned(RowsOf(db));
    SettledStart(Migrated(db), |Plan(Migrated(db))|);
  }

  // ---- The code ----

  lemma {:induction false} UnitsConcatenate(db: DB, a: seq<Unit>, b: seq<Unit>)
    ensures ExecUnits(db, a + b) ==
            var (mid, ok) := ExecUnits(db, a);
            if ok then ExecUnits(mid, b) else (mid, false)
    decreases |b|
  {
    if b == [] {
      assert a + b == a;
    } else {
      UnitsConcatenate(db, a, b[..|b| - 1]);
      assert (a + b)[..|a + b| - 1] == a + b[..|b| - 1];
    }
  }

  /** The database file and the code that opens it. */
  class SQLiteFile {
    var db: DB

    constructor (db: DB)
      ensures this.db == db
    {
      this.db := db;
    }

    method Execute(s: Stmt) returns (ok: bool)
      modifies this
      ensures ok <==> Exec(old(db), s).Some?
      ensures db == Exec(old(db), s).GetOr(old(db))
    {
      var r := Exec(db, s);
      ok := r.Some?;
      db := r.GetOr(db);
    }

    /** The rebuild loop inside its transaction; a power cut after `cut` of its statements rolls it back. */
    method RebuildKeys(cut: nat) returns (ok: bool)
      modifies this
      ensures cut >= |REBUILD| ==> (db, ok) == ExecUnit(old(db), Rebuild)
      ensures cut < |REBUILD| ==> db == old(db) && !ok
    {
      var saved := db;
      var i := 0;
      while i < |REBUILD|
        invariant i <= |REBUILD| && i <= cut
        invariant (db, true) == ExecAll(saved, REBUILD[..i])
      {
        OneMore(saved, REBUILD[..i], REBUILD[i]);
        assert REBUILD[..i] + [REBUILD[i]] == REBUILD[..i + 1];
        if i == cut {
          db := saved;
          return false;
        }
        var done := Execute(REBUILD[i]);
        if !done {
          StaysFailed(saved, REBUILD, i + 1);
          db := saved;
          return false;
        }
        i := i + 1;
      }
      assert REBUILD[..|REBUILD|] == REBUILD;
      return true;
    }

    method RunUnit(u: Unit) returns (ok: bool)
      modifies this
      ensures (db, ok) == ExecUnit(old(db), u)
    {
      match u {
        case Plain(s) => ok := Execute(s);
        case Rebuild => ok := RebuildKeys(|REBUILD|);
        case CheckForeignKeys =>
          var bad := set id | db.keys.Some? && id in db.keys.value.rows && db.keys.value.rows[id].account.Some?
                              && db.keys.value.rows[id].account.value !in db.accounts;
          ok := bad == {} && !db.strays;
          assert forall id :: id in bad <==>
                   db.keys.Some? && id in db.keys.value.rows && db.keys.value.rows[id].account.Some?
                   && db.keys.value.rows[id].account.value !in db.accounts;
          assert bad == {} <==> !exists id :: id in bad;
      }
    }

    /** At most n units, stopping at the first error. */
    method RunUnits(units: seq<Unit>, n: nat) returns (ok: bool)
      modifies this
      ensures (db, ok) == ExecUnits(old(db), if n <= |units| then units[..n] else units)
    {
      var m := if n <= |units| then n else |units|;
      var i := 0;
      while i < m
        invariant i <= m
        invariant (db, true) == ExecUnits(old(db), units[..i])
      {
        assert units[..i + 1][..i] == units[..i];
        ok := RunUnit(units[i]);
        assert (db, ok) == ExecUnits(old(db), units[..i + 1]);
        if !ok {
          UnitsStayFailed(old(db), units, i + 1, m);
          assert units[..|units|] == units;
          return false;
        }
        i := i + 1;
      }
      assert units[..|units|] == units;
      return true;
    }

    /** PRAGMA table_info. */
    method Probe() returns (colExists: bool, colNotNull: bool)
      requires db.keys.Some?
      ensures colExists <==> !ShapeOf(db).NoColumn?
      ensures colNotNull <==> ShapeOf(db).NotNull?
    {
      return db.keys.value.shape != NoColumn, db.keys.value.shape == NotNull;
    }

    /** NewSQLiteStore with a power cut after n units: schema and seed, then the migration the probe asks for. */
    method Open(n: nat) returns (o: Outcome)
      requires WellFormed(db)
      modifies this
      ensures (db, o) == Start(old(db), n)
    {
      ghost var was, plan := db, Plan(db);
      var ok := RunUnits(OPENING, n);
      OpeningIs(was, n);
      if !ok {
        return Failed;
      }
      if n < |OPENING| {
        return Cut;
      }
      var colExists, colNotNull := Probe();
      var units := [];
      if !colExists {
        units := units + [Plain(AddColumn)];
      }
      units := units + [Plain(CreateIndexIfMissing(BY_ACCOUNT)), Plain(Backfill)];
      if !colExists || !colNotNull {
        units := units + [Rebuild, CheckForeignKeys];
      }
      assert units == Rest(ShapeOf(was));
      ok := RunUnits(units, n - |OPENING|);
      ghost var rest := if n <= |plan| then units[..n - |OPENING|] else units;
      UnitsConcatenate(was, OPENING, rest);
      assert OPENING + rest == if n <= |plan| then plan[..n] else plan;
      return if !ok then Failed else if n < |OPENING| + |units| then Cut else Completed;
    }
  }

  lemma {:induction false} StaysFailed(db: DB, stmts: seq<Stmt>, n: nat)
    requires n <= |stmts| && !ExecAll(db, stmts[..n]).1
    ensures !ExecAll(db, stmts).1
    decreases |stmts|
  {
    if n == |stmts| {
      assert stmts[..n] == stmts;
    } else {
      assert stmts[..|stmts| - 1][..n] == stmts[..n];
      StaysFailed(db, stmts[..|stmts| - 1], n);
    }
  }

  lemma {:induction false} UnitsStayFailed(db: DB, units: seq<Unit>, n: nat, m: nat)
    requires n <= m <= |units| && !ExecUnits(db, units[..n]).1
    ensures ExecUnits(db, units[..m]) == ExecUnits(db, units[..n])
    decreases m
  {
    if n < m {
      assert units[..m][..m - 1] == units[..m - 1];
      UnitsStayFailed(db, units, n, m - 1);
    }
  }

  /** The opening units never fail, and leave the column as the probe would have found it before. */
  lemma OpeningIs(db: DB, n: nat)
    requires WellFormed(db)
    ensures var (after, ok) := ExecUnits(db, if n <= |OPENING| then OPENING[..n] else OPENING);
            ok && (n >= |OPENING| ==> after.keys.Some? && ShapeOf(after) == ShapeOf(db))
    ensures n < |OPENING| ==> Start(db, n) == (ExecUnits(db, OPENING[..n]).0, Cut)
  {
    var m := if n <= |OPENING| then n else |OPENING|;
    PlanIs(db, 0);
    assert Plan(db)[..m] == OPENING[..m] && OPENING[..|OPENING|] == OPENING;
    RowsWaitForBackfill(db, m);
  }
}
