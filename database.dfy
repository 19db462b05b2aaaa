/** Start-up of the storage: the users table with its default admin, and
    the registry of the ten CSV tables the pages write, created header-only
    when missing. */
module Database {
  import opened Util
  import opened CsvStore

  // ------------------------------------------------------------ registry

  type Schema = seq<(string, seq<string>)>

  /** Every CSV table the application keeps, with its columns in order. */
  const Registry: Schema := [
    ("breeding_batches.csv",
      ["batch_id", "species", "stage", "larva_count", "health_status",
       "created_date", "created_by", "notes", "last_updated"]),
    ("breeding_tasks.csv",
      ["task_id", "title", "type", "priority", "due_date", "batch_id",
       "description", "status", "created_by", "created_date", "completed_date"]),
    ("breeding_log.csv",
      ["timestamp", "event_type", "batch_id", "description", "logged_by"]),
    ("ai_classifications.csv",
      ["timestamp", "analysis_type", "user", "predicted_species",
       "species_confidence", "predicted_stage", "stage_confidence",
       "predicted_disease", "disease_confidence", "predicted_defect", "defect_confidence"]),
    ("pos_transactions.csv",
      ["order_number", "date", "time", "cashier", "customer_name",
       "customer_email", "payment_method", "total_items", "total_revenue",
       "total_cost", "total_profit", "notes"]),
    ("pos_items.csv",
      ["order_number", "date", "time", "item_id", "item_name", "species",
       "quantity", "unit_price", "unit_cost", "subtotal_revenue",
       "subtotal_profit", "cashier"]),
    ("pupae_sales.csv",
      ["sale_id", "sale_date", "seller_username", "buyer_name", "buyer_contact",
       "species", "stage", "quantity", "price_per_unit", "total_amount",
       "quality_grade", "payment_method", "notes", "recorded_at"]),
    ("pupae_purchases.csv",
      ["purchase_id", "purchase_date", "buyer_username", "seller_name",
       "seller_contact", "species", "stage", "quantity", "price_per_unit",
       "total_cost", "quality_received", "payment_method", "delivery_method",
       "notes", "recorded_at"]),
    ("farm_bookings.csv",
      ["booking_id", "farm_name", "farm_location", "visitor_name",
       "visitor_phone", "visitor_email", "visit_date", "visit_time",
       "num_visitors", "visit_purpose", "total_cost", "special_requests",
       "booking_status", "booked_by", "booking_date"]),
    ("farm_reviews.csv",
      ["review_id", "farm_name", "reviewer", "rating", "review_title",
       "review_text", "facilities_rating", "staff_rating", "value_rating",
       "experience_rating", "review_date"])
  ]

  /** The tables the information page counts and a reset removes. */
  const DataFiles: seq<string> := [
    "breeding_batches.csv", "breeding_tasks.csv", "breeding_log.csv",
    "ai_classifications.csv", "pos_transactions.csv", "pos_items.csv",
    "pupae_sales.csv", "pupae_purchases.csv", "farm_bookings.csv",
    "farm_reviews.csv"
  ]

  function Names(reg: Schema): (ns: seq<string>)
    ensures |ns| == |reg|
    ensures forall k :: 0 <= k < |reg| ==> ns[k] == reg[k].0
  {
    seq(|reg|, k requires 0 <= k < |reg| => reg[k].0)
  }

  /** The header-only file `pd.DataFrame(columns=headers).to_csv` leaves. */
  function HeaderOnly(header: seq<string>): (f: CsvFile)
    ensures f == Csv(header, [])
  {
    Write(Frame(header, []))
  }

  /** The files after creating, in registry order, each table that does not exist. */
  function InitializeFrom(fs: FileSystem, reg: Schema): FileSystem
    decreases |reg|
  {
    if reg == [] then fs
    else
      var n := |reg| - 1;
      var g := InitializeFrom(fs, reg[..n]);
      if reg[n].0 in g then g else g[reg[n].0 := HeaderOnly(reg[n].1)]
  }

  /** `initialize_csv_files`. */
  method InitializeCsvFiles(fs: FileSystem) returns (fs': FileSystem)
    ensures fs' == InitializeFrom(fs, Registry)
  {
    fs' := CreateMissing(fs, Registry);
  }

  /** The loop of `initialize_csv_files`, over the tables it is given. */
  method CreateMissing(fs: FileSystem, reg: Schema) returns (fs': FileSystem)
    ensures fs' == InitializeFrom(fs, reg)
  {
    fs' := fs;
    var i := 0;
    while i < |reg|
      invariant 0 <= i <= |reg|
      invariant fs' == InitializeFrom(fs, reg[..i])
    {
      assert reg[..i + 1][..i] == reg[..i];
      var (name, headers) := reg[i];
      if name !in fs' {
        fs' := fs'[name := HeaderOnly(headers)];
      }
      i := i + 1;
    }
    assert reg[..i] == reg;
  }

  /** Initialising makes every registered table exist; a table that existed
      is left as it was, a missing one is created with its registered
      header and no rows, and no other file is touched. */
  lemma InitializeEffect(fs: FileSystem, reg: Schema)
    requires Distinct(Names(reg))
    ensures var g := InitializeFrom(fs, reg);
      g.Keys == fs.Keys + ColumnSet(Names(reg)) &&
      (forall n :: n in fs ==> g[n] == fs[n]) &&
      forall k :: 0 <= k < |reg| && reg[k].0 !in fs ==> g[reg[k].0] == Csv(reg[k].1, [])
  {
    InitializeKeys(fs, reg);
    InitializeKeeps(fs, reg);
    InitializeCreates(fs, reg);
  }

  lemma {:induction false} InitializeKeys(fs: FileSystem, reg: Schema)
    ensures InitializeFrom(fs, reg).Keys == fs.Keys + ColumnSet(Names(reg))
    decreases |reg|
  {
    if reg != [] {
      var n := |reg| - 1;
      InitializeKeys(fs, reg[..n]);
      assert Names(reg) == Names(reg[..n]) + [reg[n].0];
      assert ColumnSet(Names(reg)) == ColumnSet(Names(reg[..n])) + {reg[n].0};
    }
  }

  lemma {:induction false} InitializeKeeps(fs: FileSystem, reg: Schema)
    ensures var g := InitializeFrom(fs, reg);
      forall n :: n in fs ==> n in g && g[n] == fs[n]
    decreases |reg|
  {
    if reg != [] {
      InitializeKeeps(fs, reg[..|reg| - 1]);
    }
  }

  lemma {:induction false} InitializeCreates(fs: FileSystem, reg: Schema)
    requires Distinct(Names(reg))
    ensures var g := InitializeFrom(fs, reg);
      forall k :: 0 <= k < |reg| && reg[k].0 !in fs ==> reg[k].0 in g && g[reg[k].0] == Csv(reg[k].1, [])
    decreases |reg|
  {
    if reg != [] {
      var n := |reg| - 1;
      var name := reg[n].0;
      NamesPrefixDistinct(reg);
      InitializeCreates(fs, reg[..n]);
      InitializeKeys(fs, reg[..n]);
      var g0 := InitializeFrom(fs, reg[..n]);
      var g := InitializeFrom(fs, reg);
      forall k | 0 <= k < |reg| && reg[k].0 !in fs
        ensures reg[k].0 in g && g[reg[k].0] == Csv(reg[k].1, [])
      {
        if k < n {
          assert reg[..n][k] == reg[k];
        } else {
          assert name !in g0;
        }
      }
    }
  }

  /** Dropping the last table keeps the names distinct, and the last name
      is none of the earlier ones. */
  lemma NamesPrefixDistinct(reg: Schema)
    requires reg != [] && Distinct(Names(reg))
    ensures var n := |reg| - 1;
      Distinct(Names(reg[..n])) && forall k :: 0 <= k < n ==> reg[k].0 != reg[n].0
  {
    var n := |reg| - 1;
    var init := reg[..n];
    forall i, j | 0 <= i < j < |init|
      ensures Names(init)[i] != Names(init)[j]
    {
      assert Names(init)[i] == Names(reg)[i] && Names(init)[j] == Names(reg)[j];
    }
    forall k | 0 <= k < n
      ensures reg[k].0 != reg[n].0
    {
      assert Names(reg)[k] != Names(reg)[n];
    }
  }

  /** A table missing before initialisation exists afterwards, header-only. */
  lemma CreatedTable(fs: FileSystem, reg: Schema, k: nat)
    requires Distinct(Names(reg)) && k < |reg| && reg[k].0 !in fs
    ensures var g := InitializeFrom(fs, reg);
      reg[k].0 in g && g[reg[k].0] == Csv(reg[k].1, [])
  {
    InitializeEffect(fs, reg);
    assert Names(reg)[k] in ColumnSet(Names(reg));
  }

  /** When every registered table exists, initialising changes nothing. */
  lemma {:induction false} InitializeWhenComplete(fs: FileSystem, reg: Schema)
    requires forall k :: 0 <= k < |reg| ==> reg[k].0 in fs
    ensures InitializeFrom(fs, reg) == fs
    decreases |reg|
  {
    if reg != [] {
      var n := |reg| - 1;
      InitializeWhenComplete(fs, reg[..n]);
    }
  }

  /** Running the initialiser twice leaves the same files as running it once. */
  lemma InitializeIdempotent(fs: FileSystem)
    ensures InitializeFrom(InitializeFrom(fs, Registry), Registry) == InitializeFrom(fs, Registry)
  {
    RegistryNamesDistinct();
    InitializeEffect(fs, Registry);
    var g := InitializeFrom(fs, Registry);
    forall k | 0 <= k < |Registry|
      ensures Registry[k].0 in g
    {
      assert Names(Registry)[k] in ColumnSet(Names(Registry));
    }
    InitializeWhenComplete(g, Registry);
  }

  lemma RegistryNamesDistinct()
    ensures Distinct(Names(Registry))
  {
    var ns := Names(Registry);
    assert ns == DataFiles;
  }

  /** A table the initialiser created loads as its registered columns and no rows. */
  lemma CreatedTableLoadsEmpty(fs: FileSystem, k: nat)
    requires k < |Registry| && Registry[k].0 !in fs
    requires Distinct(Registry[k].1)
    ensures Load(InitializeFrom(fs, Registry), Registry[k].0) == Frame(Registry[k].1, [])
  {
    RegistryNamesDistinct();
    InitializeEffect(fs, Registry);
    DedupeOfDistinct(Registry[k].1);
  }

  // -------------------------------------------------------- information

  datatype TableInfo = TableInfo(name: string, records: nat)

  datatype DatabaseInfo = DatabaseInfo(databaseTables: seq<TableInfo>, csvFiles: seq<TableInfo>,
                                       totalRecords: nat)

  function Records(t: TableInfo): int
  {
    t.records
  }

  /** The entry of one existing CSV table: its row count, 0 when it cannot be read. */
  function CsvEntry(fs: FileSystem, name: string): TableInfo
  {
    TableInfo(name, |Load(fs, name).rows|)
  }

  /** The CSV entries of the information page: one per existing table, in order. */
  function CsvEntries(fs: FileSystem, names: seq<string>): (es: seq<TableInfo>)
    decreases |names|
  {
    if names == [] then []
    else
      var n := |names| - 1;
      CsvEntries(fs, names[..n]) + (if names[n] in fs then [CsvEntry(fs, names[n])] else [])
  }

  /** `get_database_info`. The users database is outside the files; its table
      counts are given, and none when the database file does not exist. */
  method GetDatabaseInfo(fs: FileSystem, dbTables: Option<seq<TableInfo>>) returns (info: DatabaseInfo)
    ensures info.databaseTables == (if dbTables.Some? then dbTables.value else [])
    ensures info.csvFiles == CsvEntries(fs, DataFiles)
    ensures info.totalRecords == SumOf(info.databaseTables, Records) + SumOf(info.csvFiles, Records)
  {
    var tables: seq<TableInfo> := [];
    var dbTotal: nat := 0;
    if dbTables.Some? {
      tables, dbTotal := CopyTables(dbTables.value);
    }
    var files, csvTotal := CountFiles(fs, DataFiles);
    info := DatabaseInfo(tables, files, dbTotal + csvTotal);
  }

  /** The database-table loop of `get_database_info`: the tables in order and their record total. */
  method CopyTables(ts: seq<TableInfo>) returns (tables: seq<TableInfo>, total: nat)
    ensures tables == ts && total == SumOf(ts, Records)
  {
    tables, total := [], 0;
    var i := 0;
    while i < |ts|
      invariant 0 <= i <= |ts|
      invariant tables == ts[..i]
      invariant total == SumOf(tables, Records)
    {
      SumOfAppend(tables, [ts[i]], Records);
      assert ts[..i + 1] == ts[..i] + [ts[i]];
      tables := tables + [ts[i]];
      total := total + ts[i].records;
      i := i + 1;
    }
    assert ts[..i] == ts;
  }

  /** The CSV loop of `get_database_info`: one entry per existing table and their record total. */
  method CountFiles(fs: FileSystem, names: seq<string>) returns (files: seq<TableInfo>, total: nat)
    ensures files == CsvEntries(fs, names) && total == SumOf(files, Records)
  {
    files, total := [], 0;
    var j := 0;
    while j < |names|
      invariant 0 <= j <= |names|
      invariant files == CsvEntries(fs, names[..j])
      invariant total == SumOf(files, Records)
    {
      CsvEntriesStep(fs, names, j);
      var name := names[j];
      if name in fs {
        var entry := CsvEntry(fs, name);
        SumOfAppend(files, [entry], Records);
        files := files + [entry];
        total := total + entry.records;
      }
      j := j + 1;
    }
    assert names[..j] == names;
  }

  lemma CsvEntriesStep(fs: FileSystem, names: seq<string>, j: nat)
    requires j < |names|
    ensures CsvEntries(fs, names[..j + 1]) ==
      CsvEntries(fs, names[..j]) + (if names[j] in fs then [CsvEntry(fs, names[j])] else [])
  {
    assert names[..j + 1][..j] == names[..j];
  }

  /** The information page lists exactly the existing tables of the list,
      an unreadable one with no records. */
  lemma {:induction false} CsvEntriesListExisting(fs: FileSystem, names: seq<string>)
    ensures forall e :: e in CsvEntries(fs, names) ==> e.name in names && e.name in fs
    ensures forall n :: n in names && n in fs ==> CsvEntry(fs, n) in CsvEntries(fs, names)
    ensures forall n :: n in names && n in fs && fs[n].Garbled? ==> TableInfo(n, 0) in CsvEntries(fs, names)
    decreases |names|
  {
    if names != [] {
      var k := |names| - 1;
      CsvEntriesListExisting(fs, names[..k]);
      assert names == names[..k] + [names[k]];
    }
  }

  // -------------------------------------------------------------- reset

  /** The files with one file removed. */
  function Without(fs: FileSystem, name: string): (r: FileSystem)
    ensures r.Keys == fs.Keys - {name}
  {
    map m | m in fs && m != name :: fs[m]
  }

  /** The files after removing every existing listed table. */
  function RemoveAll(fs: FileSystem, names: seq<string>): (r: FileSystem)
    ensures r.Keys == fs.Keys - ColumnSet(names)
    ensures forall n :: n in r ==> r[n] == fs[n]
    decreases |names|
  {
    if names == [] then fs
    else
      var n := |names| - 1;
      var g := RemoveAll(fs, names[..n]);
      assert ColumnSet(names) == ColumnSet(names[..n]) + {names[n]};
      if names[n] in g then Without(g, names[n]) else g
  }

  /** `reset_database`, for the CSV tables: every listed table is removed,
      then the initialiser runs. */
  method ResetCsvFiles(fs: FileSystem) returns (fs': FileSystem)
    ensures fs' == InitializeFrom(RemoveAll(fs, DataFiles), Registry)
  {
    var g := RemoveTables(fs, DataFiles);
    fs' := InitializeCsvFiles(g);
  }

  /** The removal loop of `reset_database`. */
  method RemoveTables(fs: FileSystem, names: seq<string>) returns (g: FileSystem)
    ensures g == RemoveAll(fs, names)
  {
    g := fs;
    var i := 0;
    while i < |names|
      invariant 0 <= i <= |names|
      invariant g == RemoveAll(fs, names[..i])
    {
      assert names[..i + 1][..i] == names[..i];
      var name := names[i];
      if name in g {
        g := Without(g, name);
      }
      i := i + 1;
    }
    assert names[..i] == names;
  }

  /** After a reset every registered table is header-only, whatever it held
      before, and every other file is untouched. */
  lemma ResetEffect(fs: FileSystem)
    ensures var g := InitializeFrom(RemoveAll(fs, DataFiles), Registry);
      (forall k :: 0 <= k < |Registry| ==> Registry[k].0 in g && g[Registry[k].0] == Csv(Registry[k].1, [])) &&
      (forall n :: n in fs && n !in DataFiles ==> n in g && g[n] == fs[n])
  {
    RegistryNamesDistinct();
    assert Names(Registry) == DataFiles;
    ResetOf(fs, Registry);
  }

  lemma ResetOf(fs: FileSystem, reg: Schema)
    requires Distinct(Names(reg))
    ensures var g := InitializeFrom(RemoveAll(fs, Names(reg)), reg);
      (forall k :: 0 <= k < |reg| ==> reg[k].0 in g && g[reg[k].0] == Csv(reg[k].1, [])) &&
      (forall n :: n in fs && n !in Names(reg) ==> n in g && g[n] == fs[n])
  {
    var r := RemoveAll(fs, Names(reg));
    InitializeEffect(r, reg);
    forall k | 0 <= k < |reg|
      ensures reg[k].0 !in r
    {
      assert reg[k].0 == Names(reg)[k];
    }
  }

  // -------------------------------------------------------- users table

  datatype UserAccount = UserAccount(id: nat, username: string, password: string, role: string)

  /** The users table and its AUTOINCREMENT counter. */
  datatype UsersTable = UsersTable(rows: seq<UserAccount>, lastId: nat)

  const EmptyUsers: UsersTable := UsersTable([], 0)

  predicate HasUser(t: UsersTable, username: string)
  {
    exists i :: 0 <= i < |t.rows| && t.rows[i].username == username
  }

  /** The UNIQUE constraint on usernames. */
  predicate UniqueUsernames(t: UsersTable)
  {
    forall i, j :: 0 <= i < j < |t.rows| ==> t.rows[i].username != t.rows[j].username
  }

  /** `INSERT OR IGNORE`: a username that is taken leaves the table unchanged. */
  function InsertOrIgnore(t: UsersTable, username: string, password: string, role: string): (r: UsersTable)
    ensures HasUser(r, username)
    ensures HasUser(t, username) ==> r == t
    ensures !HasUser(t, username) ==> |r.rows| == |t.rows| + 1 && r.rows[..|t.rows|] == t.rows
  {
    if HasUser(t, username) then t
    else
      var r := UsersTable(t.rows + [UserAccount(t.lastId + 1, username, password, role)], t.lastId + 1);
      assert r.rows[|t.rows|].username == username;
      r
  }

  /** `initialize_user_database`: create the table if absent, then insert the
      default admin unless an account named "admin" exists. The password
      hash is given. */
  function InitializeUsers(t: Option<UsersTable>, adminHash: string): UsersTable
  {
    InsertOrIgnore(if t.Some? then t.value else EmptyUsers, "admin", adminHash, "admin")
  }

  function CountUser(rows: seq<UserAccount>, username: string): nat
  {
    if rows == [] then 0 else (if rows[0].username == username then 1 else 0) + CountUser(rows[1..], username)
  }

  lemma {:induction false} CountUserUnique(rows: seq<UserAccount>, username: string)
    requires forall i, j :: 0 <= i < j < |rows| ==> rows[i].username != rows[j].username
    ensures CountUser(rows, username) <= 1
    ensures CountUser(rows, username) == 1 <==> exists i :: 0 <= i < |rows| && rows[i].username == username
  {
    if rows != [] {
      var tail := rows[1..];
      CountUserUnique(tail, username);
      if exists i :: 0 <= i < |rows| && rows[i].username == username {
        var i :| 0 <= i < |rows| && rows[i].username == username;
        if i > 0 {
          assert tail[i - 1].username == username;
        }
      }
    }
  }

  /** Inserting without a clash keeps usernames unique. */
  lemma InsertKeepsUnique(t: UsersTable, username: string, password: string, role: string)
    requires UniqueUsernames(t)
    ensures UniqueUsernames(InsertOrIgnore(t, username, password, role))
  {
    var r := InsertOrIgnore(t, username, password, role);
    if !HasUser(t, username) {
      forall i, j | 0 <= i < j < |r.rows|
        ensures r.rows[i].username != r.rows[j].username
      {
        if j == |t.rows| {
          assert r.rows[i] == t.rows[i];
        } else {
          assert r.rows[i] == t.rows[i] && r.rows[j] == t.rows[j];
        }
      }
    }
  }

  /** However many times the users database is initialised, there is exactly
      one account named "admin", and a second initialisation changes nothing. */
  lemma SingleAdmin(t: Option<UsersTable>, adminHash: string)
    requires t.Some? ==> UniqueUsernames(t.value)
    ensures var u := InitializeUsers(t, adminHash);
      UniqueUsernames(u) && CountUser(u.rows, "admin") == 1 &&
      InitializeUsers(Some(u), adminHash) == u
  {
    var base := if t.Some? then t.value else EmptyUsers;
    InsertKeepsUnique(base, "admin", adminHash, "admin");
    var u := InitializeUsers(t, adminHash);
    CountUserUnique(u.rows, "admin");
  }
}
