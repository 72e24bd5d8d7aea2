/** Schema migrations: every statement commits on its own, and an open can stop between any two of them. */
module Schema {
  import opened Prelude

  datatype Migration = Migration(version: int, table: string, columns: seq<string>)

  datatype Index = Index(table: string, columns: set<string>)

  /** What the code declares: the full tables, the migrations in order, the indexes made last. */
  datatype Design = Design(
    order: seq<string>, full: map<string, set<string>>, migrations: seq<Migration>, indexes: seq<Index>)

  datatype Db = Db(tables: map<string, set<string>>, version: int)

  datatype Statement =
    | CreateTable(table: string, columns: set<string>)
    | AddColumn(table: string, column: string)
    | SetVersion(version: int)
    | CreateIndex(index: Index)

  /** SQLite's answer: the new database, or an error that changes nothing. */
  function Executed(db: Db, s: Statement): Option<Db> {
    match s
    case CreateTable(table, columns) =>
      if table in db.tables then Some(db) else Some(db.(tables := db.tables[table := columns]))
    case AddColumn(table, column) =>
      if table !in db.tables || column in db.tables[table] then None
      else Some(db.(tables := db.tables[table := db.tables[table] + {column}]))
    case SetVersion(version) => Some(db.(version := version))
    case CreateIndex(index) =>
      if index.table in db.tables && index.columns <= db.tables[index.table] then Some(db) else None
  }

  /** An open in progress. A budget is the number of statements until a crash or an error; None never runs out. */
  datatype Opening = Opening(db: Db, budget: Option<nat>, ok: bool)

  function Step(o: Opening, s: Statement): Opening {
    if !o.ok then o
    else if o.budget == Some(0) then o.(ok := false)
    else
      var next := Executed(o.db, s);
      if next.None? then o.(ok := false)
      else Opening(next.value, if o.budget.Some? then Some(o.budget.value - 1) else None, true)
  }

  /** CREATE TABLE IF NOT EXISTS for the first n tables. */
  function Created(o: Opening, d: Design, n: nat): Opening
    requires Sound(d) && n <= |d.order|
  {
    if n == 0 then o else Step(Created(o, d, n - 1), CreateTable(d.order[n - 1], d.full[d.order[n - 1]]))
  }

  /** ALTER TABLE for those of the first n columns that were not there when the migration began. */
  function Added(o: Opening, m: Migration, present: set<string>, n: nat): Opening
    requires n <= |m.columns|
  {
    if n == 0 then o
    else
      var before := Added(o, m, present, n - 1);
      if m.columns[n - 1] in present then before else Step(before, AddColumn(m.table, m.columns[n - 1]))
  }

  function Columns(db: Db, table: string): set<string> {
    if table in db.tables then db.tables[table] else {}
  }

  function Migrated(o: Opening, m: Migration): Opening {
    if !o.ok then o else Step(Added(o, m, Columns(o.db, m.table), |m.columns|), SetVersion(m.version))
  }

  /** The first n migrations, those not newer than the version found at the start skipped. */
  function MigratedAll(o: Opening, d: Design, n: nat): Opening
    requires n <= |d.migrations|
  {
    if n == 0 then o
    else
      var (before, m) := (MigratedAll(o, d, n - 1), d.migrations[n - 1]);
      if m.version > o.db.version then Migrated(before, m) else before
  }

  function Indexed(o: Opening, d: Design, n: nat): Opening
    requires n <= |d.indexes|
  {
    if n == 0 then o else Step(Indexed(o, d, n - 1), CreateIndex(d.indexes[n - 1]))
  }

  /** apply_schema. */
  function Opened(d: Design, db: Db, budget: Option<nat>): Opening
    requires Sound(d)
  {
    var created := Created(Opening(db, budget, true), d, |d.order|);
    var migrated := MigratedAll(created, d, |d.migrations|);
    Indexed(migrated, d, |d.indexes|)
  }

  /** What a list of migrations must be like: ascending, each adding columns the full tables declare. */
  ghost predicate Sound(d: Design) {
    && (forall i | 0 <= i < |d.order| :: d.order[i] in d.full)
    && (forall i, j | 0 <= i < j < |d.migrations| :: d.migrations[i].version < d.migrations[j].version)
    && (forall i | 0 <= i < |d.migrations| :: Declared(d, d.migrations[i]))
    && (forall i | 0 <= i < |d.indexes| ::
          d.indexes[i].table in d.order && d.indexes[i].columns <= d.full[d.indexes[i].table])
    && (forall i, j | 0 <= i < j < |d.migrations| && d.migrations[i].table == d.migrations[j].table ::
          forall c <- d.migrations[i].columns :: c !in d.migrations[j].columns)
  }

  ghost predicate Declared(d: Design, m: Migration) {
    && m.table in d.order && m.table in d.full
    && (forall i | 0 <= i < |m.columns| :: m.columns[i] in d.full[m.table])
    && (forall i, j | 0 <= i < j < |m.columns| :: m.columns[i] != m.columns[j])
  }

  class Connection {
    var db: Db
    var budget: Option<nat>

    constructor (db: Db, budget: Option<nat>)
      ensures this.db == db && this.budget == budget
    {
      this.db, this.budget := db, budget;
    }

    method Execute(s: Statement) returns (ok: bool)
      modifies this
      ensures Opening(db, budget, ok) == Step(Opening(old(db), old(budget), true), s)
    {
      if budget == Some(0) {
        return false;
      }
      var next := Executed(db, s);
      if next.None? {
        return false;
      }
      db := next.value;
      budget := if budget.Some? then Some(budget.value - 1) else None;
      return true;
    }

    method Migrate(m: Migration) returns (ok: bool)
      modifies this
      ensures Opening(db, budget, ok) == Migrated(Opening(old(db), old(budget), true), m)
    {
      ghost var start := Opening(db, budget, true);
      var present := Columns(db, m.table);
      ok := true;
      for i := 0 to |m.columns|
        invariant Opening(db, budget, ok) == Added(start, m, present, i)
      {
        if ok && m.columns[i] !in present {
          ok := Execute(AddColumn(m.table, m.columns[i]));
        }
      }
      if ok {
        ok := Execute(SetVersion(m.version));
      }
    }

    method ApplySchema(d: Design) returns (ok: bool)
      requires Sound(d)
      modifies this
      ensures Opening(db, budget, ok) == Opened(d, old(db), old(budget))
    {
      ghost var start := Opening(db, budget, true);
      ok := true;
      for i := 0 to |d.order|
        invariant Opening(db, budget, ok) == Created(start, d, i)
      {
        if ok {
          ok := Execute(CreateTable(d.order[i], d.full[d.order[i]]));
        }
      }
      var current := db.version;
      ghost var created := Opening(db, budget, ok);
      for i := 0 to |d.migrations|
        invariant Opening(db, budget, ok) == MigratedAll(created, d, i)
      {
        if ok && d.migrations[i].version > current {
          ok := Migrate(d.migrations[i]);
        }
      }
      ghost var migrated := Opening(db, budget, ok);
      for i := 0 to |d.indexes|
        invariant Opening(db, budget, ok) == Indexed(migrated, d, i)
      {
        if ok {
          ok := Execute(CreateIndex(d.indexes[i]));
        }
      }
    }
  }

  // ---------------------------------------------------------------------------------------
  // What no interruption breaks
  // ---------------------------------------------------------------------------------------

  ghost predicate HasColumns(db: Db, m: Migration) {
    m.table in db.tables && forall i | 0 <= i < |m.columns| :: m.columns[i] in db.tables[m.table]
  }

  /** No migration the version has passed misses a column, unless its table is still to be created in full. */
  ghost predicate Consistent(d: Design, db: Db) {
    forall i | 0 <= i < |d.migrations| && d.migrations[i].version <= db.version ::
      d.migrations[i].table !in db.tables || HasColumns(db, d.migrations[i])
  }

  /** Nothing is lost on the way from one database to the other. */
  ghost predicate Grows(a: Db, b: Db) {
    && a.version <= b.version
    && forall t | t in a.tables :: t in b.tables && a.tables[t] <= b.tables[t]
  }

  ghost predicate HasTables(d: Design, db: Db, n: nat)
    requires n <= |d.order|
  {
    forall i | 0 <= i < n :: d.order[i] in db.tables
  }

  lemma StepGrows(o: Opening, s: Statement)
    requires s.SetVersion? ==> o.db.version <= s.version
    ensures Grows(o.db, Step(o, s).db)
    ensures Step(o, s).ok ==> o.ok
  {}

  lemma GrowsFurther(a: Db, b: Db, c: Db)
    requires Grows(a, b) && Grows(b, c)
    ensures Grows(a, c)
  {}

  lemma {:induction false} CreatedKeeps(o: Opening, d: Design, n: nat)
    requires Sound(d) && n <= |d.order| && Consistent(d, o.db)
    ensures var r := Created(o, d, n);
            && Consistent(d, r.db) && Grows(o.db, r.db) && r.db.version == o.db.version
            && (r.ok ==> o.ok && HasTables(d, r.db, n))
  {
    if n > 0 {
      CreatedKeeps(o, d, n - 1);
      var before := Created(o, d, n - 1);
      var s := CreateTable(d.order[n - 1], d.full[d.order[n - 1]]);
      StepGrows(before, s);
      var after := Step(before, s).db;
      forall i
        | 0 <= i < |d.migrations| && d.migrations[i].version <= after.version && d.migrations[i].table in after.tables
        ensures HasColumns(after, d.migrations[i])
      {
        assert Declared(d, d.migrations[i]);
        if d.migrations[i].table in before.db.tables { assert HasColumns(before.db, d.migrations[i]); }
      }
    }
  }

  /** More columns, same version: nothing the version has passed can get worse. */
  lemma ColumnsKeepConsistent(d: Design, a: Db, b: Db)
    requires Consistent(d, a) && Grows(a, b) && b.version == a.version && b.tables.Keys == a.tables.Keys
    ensures Consistent(d, b)
  {
    forall i | 0 <= i < |d.migrations| && d.migrations[i].version <= b.version && d.migrations[i].table in b.tables
      ensures HasColumns(b, d.migrations[i])
    {
      assert HasColumns(a, d.migrations[i]);
    }
  }

  lemma {:induction false} AddedKeeps(o: Opening, m: Migration, present: set<string>, n: nat)
    requires n <= |m.columns| && present <= Columns(o.db, m.table)
    ensures var r := Added(o, m, present, n);
            && Grows(o.db, r.db) && r.db.version == o.db.version && r.db.tables.Keys == o.db.tables.Keys
            && (r.ok ==> o.ok && forall i | 0 <= i < n :: m.columns[i] in Columns(r.db, m.table))
  {
    if n > 0 {
      AddedKeeps(o, m, present, n - 1);
      StepGrows(Added(o, m, present, n - 1), AddColumn(m.table, m.columns[n - 1]));
    }
  }

  /** The migrations up to the n-th are in, or the open has stopped. */
  ghost predicate Passed(d: Design, o: Opening, n: nat)
    requires n <= |d.migrations|
  {
    o.ok ==> forall i | 0 <= i < n :: d.migrations[i].version <= o.db.version
  }

  lemma MigratedKeeps(d: Design, o: Opening, k: nat)
    requires Sound(d) && k < |d.migrations| && Consistent(d, o.db) && Passed(d, o, k)
    requires o.ok ==> o.db.version < d.migrations[k].version && HasTables(d, o.db, |d.order|)
    ensures var r := Migrated(o, d.migrations[k]);
            && Consistent(d, r.db) && Grows(o.db, r.db) && Passed(d, r, k + 1)
            && (r.ok ==> o.ok && r.db.version == d.migrations[k].version && HasTables(d, r.db, |d.order|))
  {
    var m := d.migrations[k];
    if o.ok {
      var added := Added(o, m, Columns(o.db, m.table), |m.columns|);
      AddedKeeps(o, m, Columns(o.db, m.table), |m.columns|);
      ColumnsKeepConsistent(d, o.db, added.db);
      StepGrows(added, SetVersion(m.version));
      var after := Step(added, SetVersion(m.version)).db;
      if Step(added, SetVersion(m.version)).ok {
        assert Declared(d, m) && HasColumns(added.db, m);
        forall i
          | 0 <= i < |d.migrations| && d.migrations[i].version <= after.version && d.migrations[i].table in after.tables
          ensures HasColumns(after, d.migrations[i])
        {
          if i < k { assert HasColumns(added.db, d.migrations[i]); }
        }
      }
    }
  }

  lemma {:induction false} MigratedAllKeeps(d: Design, o: Opening, n: nat)
    requires Sound(d) && n <= |d.migrations| && Consistent(d, o.db) && (o.ok ==> HasTables(d, o.db, |d.order|))
    ensures var r := MigratedAll(o, d, n);
            && Consistent(d, r.db) && Grows(o.db, r.db) && Passed(d, r, n)
            && (r.ok ==> o.ok && HasTables(d, r.db, |d.order|))
            && (r.ok ==> (r.db.version == o.db.version || (n > 0 && r.db.version <= d.migrations[n - 1].version)))
  {
    if n > 0 {
      MigratedAllKeeps(d, o, n - 1);
      var before := MigratedAll(o, d, n - 1);
      if d.migrations[n - 1].version > o.db.version {
        MigratedKeeps(d, before, n - 1);
        GrowsFurther(o.db, before.db, Migrated(before, d.migrations[n - 1]).db);
      }
    }
  }

  lemma {:induction false} IndexedKeeps(o: Opening, d: Design, n: nat)
    requires n <= |d.indexes|
    ensures Indexed(o, d, n).db == o.db && (Indexed(o, d, n).ok ==> o.ok)
  {
    if n > 0 { IndexedKeeps(o, d, n - 1); }
  }

  /** Wherever an open stops: nothing is lost, and the version has passed no migration with columns missing. */
  lemma OpenKeepsConsistent(d: Design, db: Db, budget: Option<nat>)
    requires Sound(d) && Consistent(d, db)
    ensures var r := Opened(d, db, budget);
            Consistent(d, r.db) && Grows(db, r.db) && (r.ok ==> Complete(d, r.db))
  {
    var start := Opening(db, budget, true);
    var created := Created(start, d, |d.order|);
    CreatedKeeps(start, d, |d.order|);
    MigratedAllKeeps(d, created, |d.migrations|);
    var migrated := MigratedAll(created, d, |d.migrations|);
    IndexedKeeps(migrated, d, |d.indexes|);
    GrowsFurther(db, created.db, migrated.db);
    if Opened(d, db, budget).ok { PassedIsComplete(d, migrated.db); }
  }

  /** Every table and every migrated column is there, and no migration is left to run. */
  ghost predicate Complete(d: Design, db: Db) {
    && HasTables(d, db, |d.order|)
    && forall i | 0 <= i < |d.migrations| :: d.migrations[i].version <= db.version && HasColumns(db, d.migrations[i])
  }

  lemma PassedIsComplete(d: Design, db: Db)
    requires Sound(d) && Consistent(d, db) && HasTables(d, db, |d.order|)
    requires forall i | 0 <= i < |d.migrations| :: d.migrations[i].version <= db.version
    ensures Complete(d, db)
  {
    forall i | 0 <= i < |d.migrations| ensures HasColumns(db, d.migrations[i]) {
      assert Declared(d, d.migrations[i]);
    }
  }

  // ---------------------------------------------------------------------------------------
  // Uninterrupted opens
  // ---------------------------------------------------------------------------------------

  ghost predicate Free(o: Opening) {
    o.ok && o.budget.None?
  }

  lemma {:induction false} CreatedFree(o: Opening, d: Design, n: nat)
    requires Sound(d) && n <= |d.order| && Free(o)
    ensures Free(Created(o, d, n))
    ensures forall t | t in Created(o, d, n).db.tables && t !in o.db.tables ::
      t in d.full && Created(o, d, n).db.tables[t] == d.full[t]
    ensures forall t | t in o.db.tables ::
              t in Created(o, d, n).db.tables && Created(o, d, n).db.tables[t] == o.db.tables[t]
  {
    if n > 0 { CreatedFree(o, d, n - 1); }
  }

  lemma {:induction false} AddedFree(o: Opening, m: Migration, n: nat)
    requires n <= |m.columns| && Free(o) && m.table in o.db.tables
    requires forall i, j | 0 <= i < j < |m.columns| :: m.columns[i] != m.columns[j]
    ensures var r := Added(o, m, Columns(o.db, m.table), n);
            && Free(r) && r.db.tables.Keys == o.db.tables.Keys
            && (forall c <- Columns(r.db, m.table) ::
                  c in Columns(o.db, m.table) || exists i | 0 <= i < n :: c == m.columns[i])
            && (forall t | t in o.db.tables && t != m.table :: r.db.tables[t] == o.db.tables[t])
  {
    if n > 0 {
      AddedFree(o, m, n - 1);
      var before := Added(o, m, Columns(o.db, m.table), n - 1);
      var c := m.columns[n - 1];
      if c !in Columns(o.db, m.table) {
        assert c !in Columns(before.db, m.table);
        assert Columns(Added(o, m, Columns(o.db, m.table), n).db, m.table) == Columns(before.db, m.table) + {c};
      }
    }
  }

  /** Among the first n migrations, one newer than `version` adds the column. */
  ghost predicate Adds(d: Design, n: nat, version: int, table: string, column: string)
    requires n <= |d.migrations|
  {
    exists i | 0 <= i < n ::
      d.migrations[i].version > version && d.migrations[i].table == table && column in d.migrations[i].columns
  }

  lemma {:induction false} MigratedAllFree(d: Design, o: Opening, n: nat)
    requires Sound(d) && n <= |d.migrations| && Free(o) && HasTables(d, o.db, |d.order|)
    ensures var r := MigratedAll(o, d, n);
            && Free(r) && r.db.tables.Keys == o.db.tables.Keys
            && forall t, c | t in r.db.tables && c in r.db.tables[t] ::
                 c in o.db.tables[t] || Adds(d, n, o.db.version, t, c)
  {
    if n > 0 {
      MigratedAllFree(d, o, n - 1);
      var (before, m) := (MigratedAll(o, d, n - 1), d.migrations[n - 1]);
      if m.version > o.db.version {
        assert Declared(d, m);
        AddedFree(before, m, |m.columns|);
        var r := MigratedAll(o, d, n);
        forall t, c | t in r.db.tables && c in r.db.tables[t]
          ensures c in o.db.tables[t] || Adds(d, n, o.db.version, t, c)
        {
          if c !in before.db.tables[t] {
            assert d.migrations[n - 1].table == t && c in d.migrations[n - 1].columns;
          }
        }
      }
    }
  }

  /** Columns no migration adds: every table made by some release has them. */
  ghost predicate HasOriginals(d: Design, db: Db) {
    forall t, c | t in db.tables && t in d.full && c in d.full[t] && (forall i | 0 <= i < |d.migrations| ::
                    d.migrations[i].table != t || c !in d.migrations[i].columns) :: c in db.tables[t]
  }

  lemma {:induction false} IndexedFree(o: Opening, d: Design, n: nat)
    requires n <= |d.indexes| && Free(o)
    requires forall i | 0 <= i < n ::
               d.indexes[i].columns <= Columns(o.db, d.indexes[i].table) && d.indexes[i].table in o.db.tables
    ensures Free(Indexed(o, d, n)) && Indexed(o, d, n).db == o.db
  {
    if n > 0 { IndexedFree(o, d, n - 1); }
  }

  /** Stopped anywhere, opens leave the original columns alone. */
  lemma OpenKeepsOriginals(d: Design, db: Db, budget: Option<nat>)
    requires Sound(d) && Consistent(d, db) && HasOriginals(d, db)
    ensures HasOriginals(d, Opened(d, db, budget).db)
  {
    var start := Opening(db, budget, true);
    var created := Created(start, d, |d.order|);
    CreatedKeeps(start, d, |d.order|);
    CreatedKeepsOriginals(start, d, |d.order|);
    MigratedAllKeeps(d, created, |d.migrations|);
    MigratedAllKeepsTables(d, created, |d.migrations|);
    IndexedKeeps(MigratedAll(created, d, |d.migrations|), d, |d.indexes|);
  }

  lemma {:induction false} CreatedKeepsOriginals(o: Opening, d: Design, n: nat)
    requires Sound(d) && n <= |d.order| && HasOriginals(d, o.db)
    ensures HasOriginals(d, Created(o, d, n).db)
  {
    if n > 0 { CreatedKeepsOriginals(o, d, n - 1); }
  }

  lemma {:induction false} MigratedAllKeepsTables(d: Design, o: Opening, n: nat)
    requires n <= |d.migrations|
    ensures MigratedAll(o, d, n).db.tables.Keys == o.db.tables.Keys
  {
    if n > 0 {
      MigratedAllKeepsTables(d, o, n - 1);
      var (before, m) := (MigratedAll(o, d, n - 1), d.migrations[n - 1]);
      if m.version > o.db.version && before.ok {
        AddedKeeps(before, m, Columns(before.db, m.table), |m.columns|);
      }
    }
  }

  /** An uninterrupted open of a consistent database succeeds with every column in place. */
  lemma FullOpenCompletes(d: Design, db: Db)
    requires Sound(d) && Consistent(d, db) && HasOriginals(d, db)
    ensures Opened(d, db, None).ok && Complete(d, Opened(d, db, None).db)
  {
    var start := Opening(db, None, true);
    var created := Created(start, d, |d.order|);
    CreatedKeeps(start, d, |d.order|);
    CreatedFree(start, d, |d.order|);
    MigratedAllKeeps(d, created, |d.migrations|);
    MigratedAllFree(d, created, |d.migrations|);
    var migrated := MigratedAll(created, d, |d.migrations|);
    PassedIsComplete(d, migrated.db);
    OpenKeepsOriginals(d, db, None);
    IndexedKeeps(migrated, d, |d.indexes|);
    forall i | 0 <= i < |d.indexes|
      ensures d.indexes[i].columns <= Columns(migrated.db, d.indexes[i].table)
      ensures d.indexes[i].table in migrated.db.tables
    {
      IndexReady(d, migrated.db, d.indexes[i]);
    }
    IndexedFree(migrated, d, |d.indexes|);
  }

  lemma IndexReady(d: Design, db: Db, index: Index)
    requires Complete(d, db) && HasOriginals(d, db)
    requires index.table in d.order && index.table in d.full && index.columns <= d.full[index.table]
    ensures index.table in db.tables && index.columns <= db.tables[index.table]
  {
    var k :| 0 <= k < |d.order| && d.order[k] == index.table;
    forall c | c in index.columns ensures c in db.tables[index.table] {
      if i :| 0 <= i < |d.migrations| && d.migrations[i].table == index.table && c in d.migrations[i].columns {
        assert HasColumns(db, d.migrations[i]);
      }
    }
  }

  /** Exactly the consistent databases are completed: a column missing behind the version stays missing. */
  lemma CompletesIffConsistent(d: Design, db: Db)
    requires Sound(d) && HasOriginals(d, db)
    ensures Complete(d, Opened(d, db, None).db) <==> Consistent(d, db)
  {
    if Consistent(d, db) {
      FullOpenCompletes(d, db);
    } else {
      var i :| 0 <= i < |d.migrations| && d.migrations[i].version <= db.version
               && d.migrations[i].table in db.tables && !HasColumns(db, d.migrations[i]);
      var m := d.migrations[i];
      var k :| 0 <= k < |m.columns| && m.columns[k] !in db.tables[m.table];
      StaysMissing(d, db, i, k);
    }
  }

  lemma StaysMissing(d: Design, db: Db, i: nat, k: nat)
    requires Sound(d) && i < |d.migrations| && k < |d.migrations[i].columns|
    requires var m := d.migrations[i];
             m.version <= db.version && m.table in db.tables && m.columns[k] !in db.tables[m.table]
    ensures !Complete(d, Opened(d, db, None).db)
  {
    var m := d.migrations[i];
    var start := Opening(db, None, true);
    var created := Created(start, d, |d.order|);
    CreatedFree(start, d, |d.order|);
    CreatedHasTables(start, d, |d.order|);
    MigratedAllFree(d, created, |d.migrations|);
    var migrated := MigratedAll(created, d, |d.migrations|);
    IndexedKeeps(migrated, d, |d.indexes|);
    assert m.columns[k] in m.columns;
    assert !HasColumns(migrated.db, m);
  }

  lemma {:induction false} CreatedHasTables(o: Opening, d: Design, n: nat)
    requires Sound(d) && n <= |d.order| && Free(o)
    ensures HasTables(d, Created(o, d, n).db, n) && Created(o, d, n).db.version == o.db.version
  {
    if n > 0 {
      CreatedFree(o, d, n - 1);
      CreatedHasTables(o, d, n - 1);
    }
  }

  // ---------------------------------------------------------------------------------------
  // Any number of interrupted opens
  // ---------------------------------------------------------------------------------------

  /** Open after open, each stopping where its budget says. */
  function Attempts(d: Design, db: Db, budgets: seq<Option<nat>>): Db
    requires Sound(d)
  {
    if budgets == [] then db
    else Opened(d, Attempts(d, db, budgets[..|budgets| - 1]), budgets[|budgets| - 1]).db
  }

  lemma {:induction false} AttemptsKeep(d: Design, db: Db, budgets: seq<Option<nat>>)
    requires Sound(d) && Consistent(d, db) && HasOriginals(d, db)
    ensures var r := Attempts(d, db, budgets);
            Consistent(d, r) && HasOriginals(d, r) && Grows(db, r)
  {
    if budgets != [] {
      var n := |budgets| - 1;
      AttemptsKeep(d, db, budgets[..n]);
      var before := Attempts(d, db, budgets[..n]);
      OpenKeepsConsistent(d, before, budgets[n]);
      OpenKeepsOriginals(d, before, budgets[n]);
      GrowsFurther(db, before, Opened(d, before, budgets[n]).db);
    }
  }

  /**
   * However often opening was cut short, and wherever, the next full open succeeds: every table and
   * column is there, the version is current, and nothing that was there before is gone.
   */
  lemma MigrationsConverge(d: Design, db: Db, budgets: seq<Option<nat>>)
    requires Sound(d) && Consistent(d, db) && HasOriginals(d, db)
    ensures var r := Opened(d, Attempts(d, db, budgets), None);
            r.ok && Complete(d, r.db) && Grows(db, r.db)
  {
    AttemptsKeep(d, db, budgets);
    var before := Attempts(d, db, budgets);
    FullOpenCompletes(d, before);
    OpenKeepsConsistent(d, before, None);
    GrowsFurther(db, before, Opened(d, before, None).db);
  }

  // ---------------------------------------------------------------------------------------
  // No version but a migration's own
  // ---------------------------------------------------------------------------------------

  lemma {:induction false} CreatedVersion(o: Opening, d: Design, n: nat)
    requires Sound(d) && n <= |d.order|
    ensures Created(o, d, n).db.version == o.db.version
  {
    if n > 0 { CreatedVersion(o, d, n - 1); }
  }

  lemma {:induction false} AddedVersion(o: Opening, m: Migration, present: set<string>, n: nat)
    requires n <= |m.columns|
    ensures Added(o, m, present, n).db.version == o.db.version
  {
    if n > 0 { AddedVersion(o, m, present, n - 1); }
  }

  lemma {:induction false} MigratedVersion(o: Opening, d: Design, n: nat, newest: int)
    requires n <= |d.migrations| && o.db.version <= newest
    requires forall m <- d.migrations :: m.version <= newest
    ensures MigratedAll(o, d, n).db.version <= newest
  {
    if n > 0 {
      MigratedVersion(o, d, n - 1, newest);
      var m := d.migrations[n - 1];
      var before := MigratedAll(o, d, n - 1);
      AddedVersion(before, m, Columns(before.db, m.table), |m.columns|);
    }
  }

  lemma {:induction false} IndexedVersion(o: Opening, d: Design, n: nat)
    requires n <= |d.indexes|
    ensures Indexed(o, d, n).db.version == o.db.version
  {
    if n > 0 { IndexedVersion(o, d, n - 1); }
  }

  /** An open never raises the version beyond the newest migration's. */
  lemma OpenedVersion(d: Design, db: Db, budget: Option<nat>, newest: int)
    requires Sound(d) && db.version <= newest && forall m <- d.migrations :: m.version <= newest
    ensures Opened(d, db, budget).db.version <= newest
  {
    var created := Created(Opening(db, budget, true), d, |d.order|);
    CreatedVersion(Opening(db, budget, true), d, |d.order|);
    MigratedVersion(created, d, |d.migrations|, newest);
    IndexedVersion(MigratedAll(created, d, |d.migrations|), d, |d.indexes|);
  }

  lemma {:induction false} AttemptsVersion(d: Design, db: Db, budgets: seq<Option<nat>>, newest: int)
    requires Sound(d) && db.version <= newest && forall m <- d.migrations :: m.version <= newest
    ensures Attempts(d, db, budgets).version <= newest
  {
    if budgets != [] {
      var n := |budgets| - 1;
      AttemptsVersion(d, db, budgets[..n], newest);
      OpenedVersion(d, Attempts(d, db, budgets[..n]), budgets[n], newest);
    }
  }

  // ---------------------------------------------------------------------------------------
  // The tables migrations touch
  // ---------------------------------------------------------------------------------------

  const V1 := Migration(1, "messages", ["text", "destination_num"])

  const V2 := Migration(2, "nodes",
    ["last_snr", "last_rssi", "last_hops_used", "last_hop_start", "last_via_mqtt",
     "rf_count", "via_mqtt_count", "position_count", "telemetry_count"])

  const NODES: set<string> :=
    {"node_num", "node_id", "long_name", "short_name", "role", "hw_model", "first_seen", "last_heard",
     "packet_count", "text_count", "last_snr", "last_rssi", "last_hops_used", "last_hop_start", "last_via_mqtt",
     "rf_count", "via_mqtt_count", "position_count", "telemetry_count"}

  const MESSAGES: set<string> :=
    {"rowid", "session_id", "local_id", "packet_id", "channel_index", "destination_num", "direction", "sender_num",
     "sender_id", "sender_name", "text", "observed_at", "byte_count", "status"}

  const MESHCHAT := Design(
    ["nodes", "messages"],
    map["nodes" := NODES, "messages" := MESSAGES],
    [V1, V2],
    [Index("messages", {"channel_index", "observed_at"}), Index("messages", {"destination_num", "observed_at"}),
     Index("messages", {"observed_at"})])

  lemma MeshchatIsSound()
    ensures Sound(MESHCHAT)
  {
    assert Declared(MESHCHAT, V1);
    assert Declared(MESHCHAT, V2);
  }

  lemma NamedColumns(messages: set<string>, nodes: set<string>)
    requires forall i | 0 <= i < 2 :: V1.columns[i] in messages
    requires forall i | 0 <= i < 9 :: V2.columns[i] in nodes
    ensures {"text", "destination_num"} <= messages
    ensures {"last_snr", "last_rssi", "last_hops_used", "last_hop_start", "last_via_mqtt", "rf_count",
             "via_mqtt_count", "position_count", "telemetry_count"} <= nodes
  {
    var (a, b) := (V1.columns, V2.columns);
    assert a[0] in messages && a[1] in messages;
    assert b[0] in nodes && b[1] in nodes && b[2] in nodes && b[3] in nodes && b[4] in nodes;
    assert b[5] in nodes && b[6] in nodes && b[7] in nodes && b[8] in nodes;
  }

  /** A first install, or a database of a release before the first migration, interrupted at will. */
  lemma MeshchatConverges(db: Db, budgets: seq<Option<nat>>)
    requires db.version == 0 && HasOriginals(MESHCHAT, db)
    ensures Sound(MESHCHAT)
    ensures var r := Opened(MESHCHAT, Attempts(MESHCHAT, db, budgets), None);
            && r.ok && r.db.version == 2
            && HasColumns(r.db, V1) && HasColumns(r.db, V2)
            && "messages" in r.db.tables && {"text", "destination_num"} <= r.db.tables["messages"]
            && "nodes" in r.db.tables
            && {"last_snr", "last_rssi", "last_hops_used", "last_hop_start", "last_via_mqtt", "rf_count",
                "via_mqtt_count", "position_count", "telemetry_count"} <= r.db.tables["nodes"]
  {
    MeshchatIsSound();
    assert Consistent(MESHCHAT, db);
    MigrationsConverge(MESHCHAT, db, budgets);
    var r := Opened(MESHCHAT, Attempts(MESHCHAT, db, budgets), None);
    assert MESHCHAT.migrations[0] == V1 && MESHCHAT.migrations[1] == V2;
    assert forall i | 0 <= i < 2 :: V1.columns[i] in r.db.tables["messages"];
    assert forall i | 0 <= i < 9 :: V2.columns[i] in r.db.tables["nodes"];
    NamedColumns(r.db.tables["messages"], r.db.tables["nodes"]);
    AttemptsVersion(MESHCHAT, db, budgets, 2);
    OpenedVersion(MESHCHAT, Attempts(MESHCHAT, db, budgets), None, 2);
  }
}
