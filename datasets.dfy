/** Synthetic sales data (utils/faker_create_datasets.py): one month of records,
    twelve monthly files, and one SQLite table per file.

    The random generators (Faker, `random.randint`, `random.uniform`) are inputs:
    a `Draw` holds what they return for one record, within the ranges they promise.
    Prices are whole cents, so `round(quantity * price, 2)` is exact here. */
module Datasets {
  import opened Outcomes
  import opened Strings
  import opened Paths
  import opened Sequences

  datatype SaleRecord = SaleRecord(date: string, product: string, quantity: int, price: real, total: real)

  /** What the generators return for one record: the day, the product word,
      the quantity and the price in cents. */
  datatype Draw = Draw(day: int, product: string, quantity: int, priceCents: int)

  /** The ranges of `randint(1, 28)`, `randint(1, 20)` and `round(uniform(10.0, 200.0), 2)`. */
  predicate InRange(d: Draw)
  {
    1 <= d.day <= 28 && 1 <= d.quantity <= 20 && 1000 <= d.priceCents <= 20000
  }

  /** `f"{year}-{month:02d}-{day:02d}"`. */
  function FormatDate(year: int, month: int, day: int): string
  {
    IntToString(year) + "-" + Format02(month) + "-" + Format02(day)
  }

  /** A price in cents, in the currency unit. */
  function Price(cents: int): real
  {
    cents as real / 100.0
  }

  /** `round(quantity * price, 2)`, exact for a price in whole cents. */
  function LineTotal(quantity: int, price: real): real
  {
    quantity as real * price
  }

  function MakeRecord(year: int, month: int, d: Draw): SaleRecord
  {
    var price := Price(d.priceCents);
    SaleRecord(FormatDate(year, month, d.day), d.product, d.quantity, price, LineTotal(d.quantity, price))
  }

  function RecordOf(year: int, month: int): Draw -> SaleRecord
  {
    d => MakeRecord(year, month, d)
  }

  /** The records of one month: one per draw, `num_records` of them (none when negative). */
  function MonthRecords(year: int, month: int, numRecords: int, draws: seq<Draw>): (rs: seq<SaleRecord>)
    requires numRecords <= |draws|
    ensures |rs| == if numRecords < 0 then 0 else numRecords
  {
    if numRecords <= 0 then [] else Map(RecordOf(year, month), draws[..numRecords])
  }

  /** A record as the generator promises it: a date of that month with day 1..28,
      quantity 1..20, price between 10 and 200, total = quantity * price. */
  predicate ValidRecord(r: SaleRecord, year: int, month: int)
  {
    && (exists day | 1 <= day <= 28 :: r.date == FormatDate(year, month, day))
    && 1 <= r.quantity <= 20
    && 10.0 <= r.price <= 200.0
    && r.total == LineTotal(r.quantity, r.price)
  }

  /** `generate_sales_data_for_month`: appends one record per iteration. */
  method GenerateSalesDataForMonth(month: int, year: int, numRecords: int, draws: seq<Draw>)
    returns (records: seq<SaleRecord>)
    requires numRecords <= |draws|
    ensures records == MonthRecords(year, month, numRecords, draws)
    ensures |records| == if numRecords < 0 then 0 else numRecords
    ensures forall i :: 0 <= i < |records| && InRange(draws[i]) ==> ValidRecord(records[i], year, month)
  {
    records := [];
    var i := 0;
    while i < numRecords
      invariant 0 <= i <= if numRecords < 0 then 0 else numRecords
      invariant records == MonthRecords(year, month, i, draws)
    {
      MonthRecordsSnoc(year, month, i, draws);
      records := records + [MakeRecord(year, month, draws[i])];
      i := i + 1;
    }
    MonthRecordsValid(year, month, numRecords, draws);
  }

  /** One more iteration appends the record of the next draw. */
  lemma MonthRecordsSnoc(year: int, month: int, i: nat, draws: seq<Draw>)
    requires i < |draws|
    ensures MonthRecords(year, month, i + 1, draws)
         == MonthRecords(year, month, i, draws) + [MakeRecord(year, month, draws[i])]
  {
    MapSnoc(RecordOf(year, month), draws, i);
  }

  /** Every record made from a draw in the generators' ranges is valid. */
  lemma MonthRecordsValid(year: int, month: int, numRecords: int, draws: seq<Draw>)
    requires numRecords <= |draws|
    ensures forall i :: 0 <= i < |MonthRecords(year, month, numRecords, draws)| && InRange(draws[i]) ==>
      ValidRecord(MonthRecords(year, month, numRecords, draws)[i], year, month)
  {
    var rs := MonthRecords(year, month, numRecords, draws);
    forall i | 0 <= i < |rs| && InRange(draws[i])
      ensures ValidRecord(rs[i], year, month)
    {
      assert rs[i] == RecordOf(year, month)(draws[..numRecords][i]);
      RecordInRange(year, month, draws[i]);
    }
  }

  lemma RecordInRange(year: int, month: int, d: Draw)
    requires InRange(d)
    ensures ValidRecord(MakeRecord(year, month, d), year, month)
  {
    var r := MakeRecord(year, month, d);
    assert r.date == FormatDate(year, month, d.day);
    assert exists day | 1 <= day <= 28 :: r.date == FormatDate(year, month, day);
    PriceInRange(d.priceCents);
  }

  /** A price of 1000 to 20000 cents lies between 10 and 200. */
  lemma PriceInRange(cents: int)
    requires 1000 <= cents <= 20000
    ensures 10.0 <= Price(cents) <= 200.0
  {
  }

  /** The date splits back into year, two-digit month and two-digit day. */
  lemma DateRoundTrip(year: int, month: int, day: int)
    requires 1 <= month <= 12 && 1 <= day <= 28
    ensures var s := FormatDate(year, month, day);
      && |s| == |IntToString(year)| + 6
      && s[..|s| - 6] == IntToString(year)
      && s[|s| - 6] == '-' && s[|s| - 3] == '-'
      && AllDigits(s[|s| - 5..|s| - 3]) && ParseNat(s[|s| - 5..|s| - 3]) == month
      && AllDigits(s[|s| - 2..]) && ParseNat(s[|s| - 2..]) == day
  {
    DateParts(IntToString(year), Format02(month), Format02(day));
  }

  /** Where the pieces of `y-mm-dd` sit in the joined string. */
  lemma DateParts(y: string, mm: string, dd: string)
    requires |mm| == 2 && |dd| == 2
    ensures var s := y + "-" + mm + "-" + dd;
      && |s| == |y| + 6 && s[..|s| - 6] == y
      && s[|s| - 6] == '-' && s[|s| - 3] == '-'
      && s[|s| - 5..|s| - 3] == mm && s[|s| - 2..] == dd
  {
    var s := y + "-" + mm + "-" + dd;
    assert s[|s| - 5..|s| - 3] == mm;
    assert s[|s| - 2..] == dd;
    assert s[..|s| - 6] == y;
  }

  // ---------------------------------------------------------------------------
  // save_monthly_sales_data

  /** `f"sales_{year}_{month:02d}.{ext}"`. */
  function MonthlyFileName(year: int, month: int, ext: string): string
  {
    "sales_" + IntToString(year) + "_" + Format02(month) + "." + ext
  }

  function MonthlyPath(outputDir: string, year: int, month: int, fileFormat: string): string
  {
    Join(outputDir, MonthlyFileName(year, month, fileFormat))
  }

  const InvalidFormat: string := "Formato inválido. Use 'csv' ou 'parquet'."

  /** What `save_monthly_sales_data` does to the file system. */
  datatype Effect = MakeDirs(dir: string) | WriteFile(path: string, rows: seq<SaleRecord>)

  /** The twelve paths, month 1 first. */
  function MonthlyPaths(outputDir: string, year: int, fileFormat: string): (ps: seq<string>)
    ensures |ps| == 12
  {
    seq(12, i requires 0 <= i < 12 => MonthlyPath(outputDir, year, i + 1, fileFormat))
  }

  /** The twelve file writes, month 1 first; `draws[m - 1]` feeds month m. */
  function MonthlyWrites(outputDir: string, year: int, numRecords: int, fileFormat: string, draws: seq<seq<Draw>>)
    : (ws: seq<Effect>)
    requires |draws| == 12 && forall i :: 0 <= i < 12 ==> numRecords <= |draws[i]|
    ensures |ws| == 12
  {
    seq(12, i requires 0 <= i < 12 =>
      WriteFile(MonthlyPath(outputDir, year, i + 1, fileFormat), MonthRecords(year, i + 1, numRecords, draws[i])))
  }

  /** Month m's write goes to month m's path. */
  lemma MonthlyWriteAt(outputDir: string, year: int, numRecords: int, fileFormat: string,
                       draws: seq<seq<Draw>>, month: int)
    requires |draws| == 12 && forall i :: 0 <= i < 12 ==> numRecords <= |draws[i]|
    requires 1 <= month <= 12
    ensures MonthlyWrites(outputDir, year, numRecords, fileFormat, draws)[month - 1]
         == WriteFile(MonthlyPaths(outputDir, year, fileFormat)[month - 1], MonthRecords(year, month, numRecords, draws[month - 1]))
  {
  }

  /** The path of month m's file, chosen by format as the loop body does. */
  method MonthFilePath(outputDir: string, year: int, month: int, fileFormat: string) returns (filePath: string)
    requires fileFormat == "csv" || fileFormat == "parquet"
    requires 1 <= month <= 12
    ensures filePath == MonthlyPaths(outputDir, year, fileFormat)[month - 1]
  {
    if fileFormat == "csv" {
      filePath := Join(outputDir, MonthlyFileName(year, month, "csv"));
    } else {
      filePath := Join(outputDir, MonthlyFileName(year, month, "parquet"));
    }
  }

  /** `save_monthly_sales_data`: rejects an unknown format before touching the
      file system, creates the directory when `os.path.exists` says it is
      missing (`dirExists`), then writes months 1..12 in order and returns their
      paths. */
  method SaveMonthlySalesData(outputDir: string, year: int, numRecordsPerMonth: int, fileFormat: string,
                              dirExists: bool, draws: seq<seq<Draw>>)
    returns (r: Outcome<seq<string>>, effects: seq<Effect>)
    requires |draws| == 12
    requires forall i :: 0 <= i < 12 ==> numRecordsPerMonth <= |draws[i]|
    ensures fileFormat != "csv" && fileFormat != "parquet" ==> r == Err(InvalidFormat) && effects == []
    ensures fileFormat == "csv" || fileFormat == "parquet" ==>
      && r == Ok(MonthlyPaths(outputDir, year, fileFormat))
      && effects == (if dirExists then [] else [MakeDirs(outputDir)])
                    + MonthlyWrites(outputDir, year, numRecordsPerMonth, fileFormat, draws)
  {
    if fileFormat != "csv" && fileFormat != "parquet" {
      return Err(InvalidFormat), [];
    }
    effects := if dirExists then [] else [MakeDirs(outputDir)];
    ghost var setup := effects;
    ghost var writes := MonthlyWrites(outputDir, year, numRecordsPerMonth, fileFormat, draws);
    ghost var paths := MonthlyPaths(outputDir, year, fileFormat);
    var filePaths := [];
    var month := 1;
    while month < 13
      invariant 1 <= month <= 13
      invariant filePaths == paths[..month - 1]
      invariant effects == setup + writes[..month - 1]
    {
      var df := GenerateSalesDataForMonth(month, year, numRecordsPerMonth, draws[month - 1]);
      var filePath := MonthFilePath(outputDir, year, month, fileFormat);
      MonthlyWriteAt(outputDir, year, numRecordsPerMonth, fileFormat, draws, month);
      PrefixSnoc(setup, writes, month - 1);
      TakeSnoc(paths, month - 1);
      effects := effects + [WriteFile(filePath, df)];
      filePaths := filePaths + [filePath];
      month := month + 1;
    }
    assert writes[..12] == writes && paths[..12] == paths;
    r := Ok(filePaths);
  }

  /** Month m's file name differs from month m''s. */
  lemma MonthlyFileNamesDistinct(year: int, ext: string, m1: int, m2: int)
    requires 1 <= m1 <= 12 && 1 <= m2 <= 12 && m1 != m2
    ensures MonthlyFileName(year, m1, ext) != MonthlyFileName(year, m2, ext)
  {
    var pre := "sales_" + IntToString(year) + "_";
    var rest := "." + ext;
    var f1, f2 := Format02(m1), Format02(m2);
    assert |f1| == 2 && |f2| == 2 && ParseNat(f1) == m1 && ParseNat(f2) == m2;
    assert MonthlyFileName(year, m1, ext) == pre + f1 + rest;
    assert MonthlyFileName(year, m2, ext) == pre + f2 + rest;
    MiddleSlice(pre, f1, rest);
    MiddleSlice(pre, f2, rest);
  }

  /** The middle of a three-part concatenation can be cut back out. */
  lemma MiddleSlice(pre: string, mid: string, post: string)
    ensures pre + mid + post == pre + (mid + post)
    ensures (pre + mid + post)[|pre|..|pre| + |mid|] == mid
  {
  }

  /** The twelve monthly paths are pairwise distinct. */
  lemma MonthlyPathsDistinct(outputDir: string, year: int, fileFormat: string, m1: int, m2: int)
    requires 1 <= m1 <= 12 && 1 <= m2 <= 12 && m1 != m2
    ensures MonthlyPath(outputDir, year, m1, fileFormat) != MonthlyPath(outputDir, year, m2, fileFormat)
  {
    var a, b := MonthlyFileName(year, m1, fileFormat), MonthlyFileName(year, m2, fileFormat);
    MonthlyFileNamesDistinct(year, fileFormat, m1, m2);
    assert a[0] == 's' && b[0] == 's';
    JoinInjective(outputDir, a, b);
  }

  // ---------------------------------------------------------------------------
  // save_sales_data_to_sqlite

  /** The table name of a CSV file: its stem with '-' and ' ' replaced by '_'. */
  function TableName(file: string): (t: string)
    ensures '-' !in t && ' ' !in t
    ensures |t| == |Stem(file)|
    ensures forall k :: 0 <= k < |t| && Stem(file)[k] != '-' && Stem(file)[k] != ' ' ==> t[k] == Stem(file)[k]
  {
    ReplaceChar(ReplaceChar(Stem(file), '-', '_'), ' ', '_')
  }

  /** Which table a file's rows go to. SQLite compares identifiers ignoring
      ASCII case, so `Sales` and `sales` name one table: the database is keyed
      by the lower-cased table name. */
  function TableKey(file: string): string
  {
    Lower(TableName(file))
  }

  /** The stem of month m's file, which for a year >= 0 is also its table name. */
  function MonthlyStem(year: int, month: int): string
  {
    "sales_" + IntToString(year) + "_" + Format02(month)
  }

  /** For a non-negative year, month m's CSV lands in table `sales_{year}_{mm}`. */
  lemma MonthlyTableName(outputDir: string, year: int, month: int)
    requires year >= 0 && 1 <= month <= 12
    ensures TableName(MonthlyPath(outputDir, year, month, "csv")) == MonthlyStem(year, month)
  {
    var stem := MonthlyStem(year, month);
    MonthlyStemChars(year, month);
    MonthlyCsvName(year, month);
    CsvExtension();
    StemOfJoin(outputDir, stem, ".csv");
    ReplaceAbsent(stem, '-', '_');
    ReplaceAbsent(stem, ' ', '_');
  }

  /** A monthly stem starts with 's' and holds no '/', '-', ' ' or upper-case
      letter when the year is not negative. */
  lemma MonthlyStemChars(year: int, month: int)
    requires year >= 0 && 1 <= month <= 12
    ensures |MonthlyStem(year, month)| >= 1 && MonthlyStem(year, month)[0] == 's'
    ensures forall k :: 0 <= k < |MonthlyStem(year, month)| ==>
      MonthlyStem(year, month)[k] != '/' && MonthlyStem(year, month)[k] != '-' && MonthlyStem(year, month)[k] != ' '
    ensures Lower(MonthlyStem(year, month)) == MonthlyStem(year, month)
  {
    var stem := MonthlyStem(year, month);
    var y := IntToString(year);
    var mm := Format02(month);
    assert stem == "sales_" + y + "_" + mm;
    forall k | 0 <= k < |stem|
      ensures stem[k] != '/' && stem[k] != '-' && stem[k] != ' ' && !('A' <= stem[k] <= 'Z')
    {
      if 6 <= k < 6 + |y| {
        assert stem[k] == y[k - 6];
      } else if 7 + |y| <= k {
        assert stem[k] == mm[k - 7 - |y|];
      }
    }
    assert Lower(stem) == stem;
  }

  /** Month m's CSV file name is its stem followed by ".csv". */
  lemma MonthlyCsvName(year: int, month: int)
    ensures MonthlyFileName(year, month, "csv") == MonthlyStem(year, month) + ".csv"
  {
    assert "." + "csv" == ".csv";
  }

  /** The twelve monthly CSV files of a year >= 0 land in twelve different
      tables, even with SQLite ignoring the case of table names. */
  lemma MonthlyTablesDistinct(outputDir: string, year: int, m1: int, m2: int)
    requires year >= 0 && 1 <= m1 <= 12 && 1 <= m2 <= 12 && m1 != m2
    ensures TableKey(MonthlyPath(outputDir, year, m1, "csv")) != TableKey(MonthlyPath(outputDir, year, m2, "csv"))
  {
    MonthlyTableName(outputDir, year, m1);
    MonthlyTableName(outputDir, year, m2);
    MonthlyStemChars(year, m1);
    MonthlyStemChars(year, m2);
    var s1, s2 := MonthlyStem(year, m1), MonthlyStem(year, m2);
    var n := 7 + |IntToString(year)|;
    assert s1[n..] == Format02(m1) && s2[n..] == Format02(m2);
  }

  /** The database after loading `files` in order into `db`, which maps each
      table's lower-cased name to its rows. For each file, `exec` says whether
      SQLite accepts the statements naming its table unquoted (a stem with a
      '.', a leading digit or a keyword is a syntax error); a rejected name
      stops the loop before the table is created. Otherwise the table is
      created if missing and committed, then the file is read and its rows
      appended; a read failure stops the loop with the table created. */
  function LoadSpec(files: seq<string>, read: string -> Outcome<seq<SaleRecord>>, exec: string -> Outcome<()>,
                    db: map<string, seq<SaleRecord>>)
    : (map<string, seq<SaleRecord>>, Outcome<()>)
  {
    if files == [] then (db, Ok(()))
    else if exec(TableName(files[0])).Err? then (db, Err(exec(TableName(files[0])).error))
    else
      var t := TableKey(files[0]);
      var created := if t in db then db else db[t := []];
      match read(files[0])
      case Err(e) => (created, Err(e))
      case Ok(rows) => LoadSpec(files[1..], read, exec, created[t := created[t] + rows])
  }

  /** `save_sales_data_to_sqlite`, with `pd.read_csv` as the oracle `read` and
      the parsing of each CREATE and INSERT as the oracle `exec`; `db0` is the
      database already at `db_path` when it is opened (empty for a new file),
      whose tables and rows stay. */
  method SaveSalesDataToSqlite(db0: map<string, seq<SaleRecord>>, csvFiles: seq<string>,
                               read: string -> Outcome<seq<SaleRecord>>, exec: string -> Outcome<()>)
    returns (db: map<string, seq<SaleRecord>>, status: Outcome<()>)
    ensures (db, status) == LoadSpec(csvFiles, read, exec, db0)
  {
    db := db0;
    var i := 0;
    while i < |csvFiles|
      invariant 0 <= i <= |csvFiles|
      invariant LoadSpec(csvFiles[i..], read, exec, db) == LoadSpec(csvFiles, read, exec, db0)
    {
      assert csvFiles[i..][1..] == csvFiles[i + 1..];
      var tableName := TableName(csvFiles[i]);
      var ddl := exec(tableName);
      if ddl.Err? {
        return db, Err(ddl.error);
      }
      var key := Lower(tableName);
      if key !in db {
        db := db[key := []];
      }
      var rows := read(csvFiles[i]);
      if rows.Err? {
        return db, Err(rows.error);
      }
      db := db[key := db[key] + rows.value];
      i := i + 1;
    }
    status := Ok(());
  }

  /** Every table name accepted and every read successful. */
  predicate Loadable(files: seq<string>, read: string -> Outcome<seq<SaleRecord>>, exec: string -> Outcome<()>)
  {
    forall i :: 0 <= i < |files| ==> exec(TableName(files[i])).Ok? && read(files[i]).Ok?
  }

  /** When every name is accepted, every read succeeds and the files' tables
      differ even ignoring case, each file's table holds exactly that file's rows. */
  lemma {:induction false} LoadDistinctTables(files: seq<string>, read: string -> Outcome<seq<SaleRecord>>,
                                              exec: string -> Outcome<()>, db: map<string, seq<SaleRecord>>)
    requires Loadable(files, read, exec)
    requires forall i, j :: 0 <= i < j < |files| ==> TableKey(files[i]) != TableKey(files[j])
    requires forall i :: 0 <= i < |files| ==> TableKey(files[i]) !in db
    ensures LoadSpec(files, read, exec, db).1 == Ok(())
    ensures forall i :: 0 <= i < |files| ==> LoadedAs(LoadSpec(files, read, exec, db).0, files[i], read)
  {
    if files != [] {
      var t := TableKey(files[0]);
      var rows := read(files[0]).value;
      assert t !in db && read(files[0]) == Ok(rows) && exec(TableName(files[0])).Ok?;
      var created := db[t := []];
      var db' := created[t := created[t] + rows];
      var rest := files[1..];
      forall i | 0 <= i < |rest|
        ensures TableKey(rest[i]) !in db' && exec(TableName(rest[i])).Ok? && read(rest[i]).Ok?
      {
        assert rest[i] == files[i + 1];
      }
      LoadDistinctTables(rest, read, exec, db');
      var final := LoadSpec(rest, read, exec, db').0;
      assert LoadSpec(files, read, exec, db).0 == final;
      LoadKeeps(rest, read, exec, db', t);
      forall i | 0 <= i < |files|
        ensures LoadedAs(final, files[i], read)
      {
        if i > 0 {
          assert files[i] == rest[i - 1];
        }
      }
    }
  }

  /** Loading a file whose table already exists appends the file's rows to the
      rows already there: a second run of the load doubles its tables. */
  lemma LoadAppendsToExisting(file: string, read: string -> Outcome<seq<SaleRecord>>,
                              exec: string -> Outcome<()>, db: map<string, seq<SaleRecord>>)
    requires TableKey(file) in db && exec(TableName(file)).Ok? && read(file).Ok?
    ensures LoadSpec([file], read, exec, db).1 == Ok(())
    ensures TableKey(file) in LoadSpec([file], read, exec, db).0
    ensures LoadSpec([file], read, exec, db).0[TableKey(file)] == db[TableKey(file)] + read(file).value
  {
    assert [file][1..] == [];
  }

  /** Two files whose table names differ only in case share one table: loading
      both into a database without it leaves that table with the first file's
      rows followed by the second's, and nothing else changed. */
  lemma CaseVariantsShareTable(f1: string, f2: string, read: string -> Outcome<seq<SaleRecord>>,
                               exec: string -> Outcome<()>, db: map<string, seq<SaleRecord>>)
    requires TableKey(f1) == TableKey(f2) && TableKey(f1) !in db
    requires exec(TableName(f1)).Ok? && read(f1).Ok? && exec(TableName(f2)).Ok? && read(f2).Ok?
    ensures LoadSpec([f1, f2], read, exec, db)
      == (db[TableKey(f1) := read(f1).value + read(f2).value], Ok(()))
  {
    var t, r1, r2 := TableKey(f1), read(f1).value, read(f2).value;
    var created := db[t := []];
    var db1 := created[t := created[t] + r1];
    assert [f1, f2][0] == f1 && [f1, f2][1..] == [f2];
    assert LoadSpec([f1, f2], read, exec, db) == LoadSpec([f2], read, exec, db1);
    assert [f2][1..] == [];
    assert LoadSpec([f2], read, exec, db1) == (db1[t := db1[t] + r2], Ok(()));
    assert [] + r1 == r1;
    assert db1[t := db1[t] + r2] == db[t := r1 + r2];
  }

  /** A name SQLite rejects stops the load at that file: the database is left
      as it was and no later file is loaded. */
  lemma RejectedNameStops(files: seq<string>, read: string -> Outcome<seq<SaleRecord>>,
                          exec: string -> Outcome<()>, db: map<string, seq<SaleRecord>>, k: int)
    requires 0 <= k < |files| && exec(TableName(files[k])).Err?
    ensures LoadSpec(files, read, exec, db).1.Err?
    decreases k
  {
    if exec(TableName(files[0])).Ok? {
      var t := TableKey(files[0]);
      var created := if t in db then db else db[t := []];
      if read(files[0]).Ok? {
        assert files[1..][k - 1] == files[k];
        RejectedNameStops(files[1..], read, exec, created[t := created[t] + read(files[0]).value], k - 1);
      }
    }
  }

  /** The table of `file` holds exactly the rows read from it. */
  predicate LoadedAs(db: map<string, seq<SaleRecord>>, file: string, read: string -> Outcome<seq<SaleRecord>>)
  {
    read(file).Ok? && TableKey(file) in db && db[TableKey(file)] == read(file).value
  }

  /** Loading files whose tables are all different from t leaves table t alone. */
  lemma {:induction false} LoadKeeps(files: seq<string>, read: string -> Outcome<seq<SaleRecord>>,
                                     exec: string -> Outcome<()>, db: map<string, seq<SaleRecord>>, t: string)
    requires t in db
    requires forall i :: 0 <= i < |files| ==> TableKey(files[i]) != t
    ensures t in LoadSpec(files, read, exec, db).0 && LoadSpec(files, read, exec, db).0[t] == db[t]
  {
    if files != [] && exec(TableName(files[0])).Ok? {
      var u := TableKey(files[0]);
      var created := if u in db then db else db[u := []];
      if read(files[0]).Ok? {
        forall i | 0 <= i < |files[1..]|
          ensures TableKey(files[1..][i]) != t
        {
          assert files[1..][i] == files[i + 1];
        }
        LoadKeeps(files[1..], read, exec, created[u := created[u] + read(files[0]).value], t);
      }
    }
  }
}
