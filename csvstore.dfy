/** The tabular record store every page persists through: one CSV file per
    table, read into a frame of rows keyed by column name and written back
    whole, or extended by one line. */
module CsvStore {
  import opened Util

  /** A cell: text, an integer, or the missing value (NaN once loaded). */
  datatype Value = Str(s: string) | Num(n: int) | Null

  /** One row of a loaded table. */
  type Record = map<string, Value>

  /** A Python dict of field values, in insertion order. */
  type Fields = seq<(string, Value)>

  /** A loaded table: its column names in order and its rows. */
  datatype Frame = Frame(columns: seq<string>, rows: seq<Record>)

  /** A file on disk: a header line and positional data lines, or
      content the CSV reader rejects. */
  datatype CsvFile = Csv(header: seq<string>, lines: seq<seq<Value>>) | Garbled

  type FileSystem = map<string, CsvFile>

  /** The column every successful update stamps. */
  const LastUpdated: string := "last_updated"

  const EmptyFrame: Frame := Frame([], [])

  function ColumnSet(cols: seq<string>): set<string>
  {
    set c | c in cols
  }

  /** Distinct column names, and every row has exactly those columns. */
  predicate WellFormed(f: Frame)
  {
    Distinct(f.columns) &&
    forall i :: 0 <= i < |f.rows| ==> f.rows[i].Keys == ColumnSet(f.columns)
  }

  /** `df.empty`: no rows, or no columns. */
  predicate IsEmpty(f: Frame)
  {
    f.rows == [] || f.columns == []
  }

  /** The cell of `r` in column `c`, the missing value when the row has no such column. */
  function Get(r: Record, c: string): Value
  {
    if c in r then r[c] else Null
  }

  /** `df[col] == value` for a text value. */
  function ColumnIs(col: string, v: string): Record -> bool
  {
    r => Get(r, col) == Str(v)
  }

  /** An empty string and a missing value are both written as an empty
      field, and an empty field is read back as the missing value. */
  function Normalize(v: Value): Value
  {
    if v == Str("") then Null else v
  }

  function NormalizeRecord(r: Record): (n: Record)
    ensures n.Keys == r.Keys
  {
    map c | c in r :: Normalize(r[c])
  }

  /** What a table looks like after a write and a read. */
  function NormalizeFrame(f: Frame): (n: Frame)
    ensures n.columns == f.columns && |n.rows| == |f.rows|
  {
    Frame(f.columns, seq(|f.rows|, i requires 0 <= i < |f.rows| => NormalizeRecord(f.rows[i])))
  }

  // ---------------------------------------------------------------- dicts

  function Keys(d: Fields): (ks: seq<string>)
    ensures |ks| == |d|
    ensures forall i :: 0 <= i < |d| ==> ks[i] == d[i].0
  {
    seq(|d|, i requires 0 <= i < |d| => d[i].0)
  }

  function Values(d: Fields): (vs: seq<Value>)
    ensures |vs| == |d|
  {
    seq(|d|, i requires 0 <= i < |d| => d[i].1)
  }

  /** The value a dict holds for `k`: the last assignment to the key wins. */
  function LastValue(d: Fields, k: string): Value
    requires k in Keys(d)
  {
    var n := |d| - 1;
    if d[n].0 == k then d[n].1
    else
      assert Keys(d) == Keys(d[..n]) + [d[n].0];
      LastValue(d[..n], k)
  }

  /** A dict as a row. */
  function AsRecord(d: Fields): (r: Record)
    ensures r.Keys == ColumnSet(Keys(d))
  {
    map k | k in Keys(d) :: LastValue(d, k)
  }

  // --------------------------------------------------------- read / write

  /** The field under the first header position named `c`; an empty field
      is the missing value, and a short line leaves the trailing columns
      missing. */
  function Cell(header: seq<string>, line: seq<Value>, c: string): (v: Value)
    requires c in header
    ensures v != Str("")
  {
    var j := FirstIndex(header, c);
    if j < |line| then Normalize(line[j]) else Null
  }

  function ParseLine(header: seq<string>, line: seq<Value>): (r: Record)
    ensures r.Keys == ColumnSet(header)
  {
    map c | c in header :: Cell(header, line, c)
  }

  /** Some line has more fields than the header: the reader raises. */
  predicate HasOverlongLine(header: seq<string>, lines: seq<seq<Value>>)
  {
    exists i :: 0 <= i < |lines| && |lines[i]| > |header|
  }

  /** `load_from_csv`: a missing file, a file the reader rejects, a file
      without a header and (in this model) a file with a line longer than
      its header all give the empty table; otherwise each line becomes a row
      keyed by the header, whose repeated names are kept once. */
  function Load(fs: FileSystem, name: string): (f: Frame)
    ensures WellFormed(f)
    ensures name !in fs ==> f == EmptyFrame
    ensures name in fs && fs[name].Garbled? ==> f == EmptyFrame
    ensures name in fs && fs[name].Csv? && !HasOverlongLine(fs[name].header, fs[name].lines) ==>
              ColumnSet(f.columns) == ColumnSet(fs[name].header) && |f.rows| == |fs[name].lines|
  {
    if name !in fs then EmptyFrame
    else match fs[name]
      case Garbled => EmptyFrame
      case Csv(header, lines) =>
        if HasOverlongLine(header, lines) then EmptyFrame
        else
          var cols := Dedupe(header);
          assert ColumnSet(cols) == ColumnSet(header);
          Frame(cols, seq(|lines|, i requires 0 <= i < |lines| => ParseLine(header, lines[i])))
  }

  /** A row as loaded holds no empty strings: normalising it changes nothing. */
  predicate Normalized(r: Record)
  {
    forall c :: c in r ==> r[c] != Str("")
  }

  lemma NormalizedFixed(r: Record)
    requires Normalized(r)
    ensures NormalizeRecord(r) == r
  {
  }

  lemma LoadedRowsNormalized(fs: FileSystem, name: string)
    ensures forall i :: 0 <= i < |Load(fs, name).rows| ==> Normalized(Load(fs, name).rows[i])
  {
  }

  /** One data line of `to_csv`, in column order. */
  function Line(cols: seq<string>, r: Record): (l: seq<Value>)
    ensures |l| == |cols|
  {
    seq(|cols|, j requires 0 <= j < |cols| => Normalize(Get(r, cols[j])))
  }

  /** `df.to_csv(filename, index=False)`: a header line and one line per row. */
  function Write(f: Frame): (file: CsvFile)
    ensures file.Csv? && file.header == f.columns
  {
    Csv(f.columns, seq(|f.rows|, i requires 0 <= i < |f.rows| => Line(f.columns, f.rows[i])))
  }

  /** Writing a table and reading it back gives the table, up to empty
      strings becoming missing values. */
  lemma LoadAfterWrite(fs: FileSystem, name: string, f: Frame)
    requires WellFormed(f) && f.columns != []
    ensures Load(fs[name := Write(f)], name) == NormalizeFrame(f)
  {
    var fs' := fs[name := Write(f)];
    var lines := Write(f).lines;
    assert !HasOverlongLine(f.columns, lines);
    DedupeOfDistinct(f.columns);
    var g := Load(fs', name);
    var n := NormalizeFrame(f);
    assert |g.rows| == |n.rows|;
    forall i | 0 <= i < |f.rows|
      ensures g.rows[i] == n.rows[i]
    {
      ParseLineOfLine(f.columns, f.rows[i]);
    }
  }

  lemma ParseLineOfLine(cols: seq<string>, r: Record)
    requires r.Keys == ColumnSet(cols)
    ensures ParseLine(cols, Line(cols, r)) == NormalizeRecord(r)
  {
    var p, n := ParseLine(cols, Line(cols, r)), NormalizeRecord(r);
    forall c | c in p
      ensures p[c] == n[c]
    {
      var j := FirstIndex(cols, c);
      assert p[c] == Line(cols, r)[j];
    }
  }

  // -------------------------------------------------------------- save

  /** The data line a dict becomes, in key order. */
  function DictLine(d: Fields): (l: seq<Value>)
    ensures |l| == |d|
  {
    seq(|d|, i requires 0 <= i < |d| => Normalize(d[i].1))
  }

  /** A file appended to without a header: the line is positional. A file
      the reader rejects stays rejected. */
  function AppendLine(file: CsvFile, line: seq<Value>): CsvFile
  {
    match file
    case Csv(header, lines) => Csv(header, lines + [line])
    case Garbled => Garbled
  }

  /** `save_to_csv`: with `append` and an existing file, the record's values
      are added as one line with no header; otherwise the file is written
      fresh with the record's keys as header. No other file changes. */
  function SaveToCsv(fs: FileSystem, name: string, data: Fields, append: bool): (r: FileSystem)
    ensures r.Keys == fs.Keys + {name}
    ensures forall n :: n in fs && n != name ==> r[n] == fs[n]
    ensures append && name in fs ==> r[name] == AppendLine(fs[name], DictLine(data))
    ensures !(append && name in fs) ==> r[name] == Csv(Keys(data), [DictLine(data)])
  {
    if append && name in fs then fs[name := AppendLine(fs[name], DictLine(data))]
    else fs[name := Csv(Keys(data), [DictLine(data)])]
  }

  /** A dict whose keys name the file's header in order reads back as the
      last row of the table, after all the rows it had. */
  lemma AppendReadsBack(fs: FileSystem, name: string, data: Fields)
    requires name in fs && fs[name].Csv?
    requires Keys(data) == fs[name].header && Distinct(Keys(data))
    requires !HasOverlongLine(fs[name].header, fs[name].lines)
    ensures Load(SaveToCsv(fs, name, data, true), name) ==
              Frame(Load(fs, name).columns, Load(fs, name).rows + [NormalizeRecord(AsRecord(data))])
  {
    var header, lines := fs[name].header, fs[name].lines;
    var fs' := SaveToCsv(fs, name, data, true);
    var lines' := lines + [DictLine(data)];
    assert fs'[name] == Csv(header, lines');
    assert !HasOverlongLine(header, lines') by {
      forall i | 0 <= i < |lines'|
        ensures |lines'[i]| <= |header|
      {
        if i < |lines| {
          assert lines'[i] == lines[i];
        }
      }
    }
    ParseDictLine(data);
    var g, f := Load(fs', name), Load(fs, name);
    var expected := f.rows + [NormalizeRecord(AsRecord(data))];
    assert |g.rows| == |expected|;
    forall i | 0 <= i < |g.rows|
      ensures g.rows[i] == expected[i]
    {
      if i < |lines| {
        assert lines'[i] == lines[i];
      }
    }
  }

  /** A table that an append reads back from: it exists with the
      given header and no line longer than it. */
  predicate Ready(fs: FileSystem, name: string, cols: seq<string>)
  {
    name in fs && fs[name].Csv? && fs[name].header == cols && !HasOverlongLine(cols, fs[name].lines)
  }

  /** Appending to a ready table keeps it ready. */
  lemma AppendKeepsReady(fs: FileSystem, name: string, cols: seq<string>, data: Fields)
    requires Ready(fs, name, cols) && Keys(data) == cols
    ensures Ready(SaveToCsv(fs, name, data, true), name, cols)
  {
    var lines := fs[name].lines;
    var lines' := lines + [DictLine(data)];
    forall i | 0 <= i < |lines'|
      ensures |lines'[i]| <= |cols|
    {
      if i < |lines| {
        assert lines'[i] == lines[i];
      }
    }
  }

  /** A fresh write of a dict with distinct keys reads back as a one-row table. */
  lemma FreshSaveReadsBack(fs: FileSystem, name: string, data: Fields, append: bool)
    requires !(append && name in fs)
    requires Distinct(Keys(data))
    ensures Load(SaveToCsv(fs, name, data, append), name) ==
              Frame(Keys(data), [NormalizeRecord(AsRecord(data))])
  {
    var fs' := SaveToCsv(fs, name, data, append);
    assert !HasOverlongLine(Keys(data), [DictLine(data)]);
    DedupeOfDistinct(Keys(data));
    ParseDictLine(data);
  }

  /** Saving to a ready table, or to one that does not exist yet, leaves a
      ready table whose rows are the old ones and then the record. */
  lemma SaveReadsBack(fs: FileSystem, name: string, cols: seq<string>, data: Fields)
    requires Ready(fs, name, cols) || name !in fs
    requires Keys(data) == cols && Distinct(cols)
    ensures Ready(SaveToCsv(fs, name, data, true), name, cols)
    ensures Load(SaveToCsv(fs, name, data, true), name).rows == Load(fs, name).rows + [NormalizeRecord(AsRecord(data))]
  {
    if name in fs {
      AppendReadsBack(fs, name, data);
      AppendKeepsReady(fs, name, cols, data);
    } else {
      FreshSaveReadsBack(fs, name, data, true);
      assert !HasOverlongLine(cols, [DictLine(data)]);
    }
  }

  lemma ParseDictLine(data: Fields)
    requires Distinct(Keys(data))
    ensures ParseLine(Keys(data), DictLine(data)) == NormalizeRecord(AsRecord(data))
  {
    var ks := Keys(data);
    var p, n := ParseLine(ks, DictLine(data)), NormalizeRecord(AsRecord(data));
    forall k | k in p
      ensures p[k] == n[k]
    {
      var j := FirstIndex(ks, k);
      LastValueOfDistinct(data, j);
    }
  }

  /** With distinct keys, the value of the key at position `j` is the one stored there. */
  lemma {:induction false} LastValueOfDistinct(d: Fields, j: nat)
    requires Distinct(Keys(d)) && j < |d|
    ensures LastValue(d, d[j].0) == d[j].1
  {
    var n := |d| - 1;
    assert Keys(d)[j] == d[j].0;
    if j < n {
      assert Keys(d)[j] != Keys(d)[n];
      assert Keys(d[..n]) == Keys(d)[..n];
      LastValueOfDistinct(d[..n], j);
    }
  }

  /** Every value of a dict with distinct keys reads back, normalised, under its key. */
  lemma SavedValues(d: Fields)
    requires Distinct(Keys(d))
    ensures forall j :: 0 <= j < |d| ==> Get(NormalizeRecord(AsRecord(d)), d[j].0) == Normalize(d[j].1)
  {
    forall j | 0 <= j < |d|
      ensures Get(NormalizeRecord(AsRecord(d)), d[j].0) == Normalize(d[j].1)
    {
      assert Keys(d)[j] == d[j].0;
      LastValueOfDistinct(d, j);
    }
  }

  /** The value stored at position `j` of a dict with distinct keys reads back, normalised. */
  lemma FieldReadsBack(d: Fields, j: nat, k: string, v: Value)
    requires Distinct(Keys(d)) && j < |d| && d[j] == (k, v)
    ensures Get(NormalizeRecord(AsRecord(d)), k) == Normalize(v)
  {
    assert Keys(d)[j] == k;
    LastValueOfDistinct(d, j);
  }

  // ------------------------------------------------------------- update

  /** `df.loc[mask, field] = value`: the matching rows get the value; a column
      that did not exist is added at the end, missing in the other rows. */
  function SetWhere(f: Frame, mask: seq<bool>, field: string, v: Value): (r: Frame)
    requires |mask| == |f.rows|
    ensures |r.rows| == |f.rows|
  {
    Frame(if field in f.columns then f.columns else f.columns + [field],
          seq(|f.rows|, i requires 0 <= i < |f.rows| =>
            if mask[i] then f.rows[i][field := v] else f.rows[i][field := Get(f.rows[i], field)]))
  }

  /** The assignments of the `for field, value in updates.items()` loop, in order. */
  function ApplyUpdates(f: Frame, mask: seq<bool>, us: Fields): (r: Frame)
    requires |mask| == |f.rows|
    ensures |r.rows| == |f.rows|
    decreases |us|
  {
    if us == [] then f
    else
      var n := |us| - 1;
      SetWhere(ApplyUpdates(f, mask, us[..n]), mask, us[n].0, us[n].1)
  }

  /** The assignments of an update followed by the `last_updated` stamp. */
  function Stamped(updates: Fields, now: string): (us: Fields)
    ensures Keys(us) == Keys(updates) + [LastUpdated]
  {
    updates + [(LastUpdated, Str(now))]
  }

  /** Rows whose id column holds exactly `recordId`. */
  predicate IsMatch(r: Record, idColumn: string, recordId: string)
  {
    idColumn in r && r[idColumn] == Str(recordId)
  }

  function MatchMask(f: Frame, idColumn: string, recordId: string): (m: seq<bool>)
    ensures |m| == |f.rows|
    ensures forall i :: 0 <= i < |f.rows| ==> (m[i] <==> IsMatch(f.rows[i], idColumn, recordId))
  {
    seq(|f.rows|, i requires 0 <= i < |f.rows| => IsMatch(f.rows[i], idColumn, recordId))
  }

  /** An update or delete goes ahead: the table is not empty, it has the id
      column (a missing one raises and is reported as failure), and some row
      matches. */
  predicate CanModify(f: Frame, idColumn: string, recordId: string)
  {
    !IsEmpty(f) && idColumn in f.columns && true in MatchMask(f, idColumn, recordId)
  }

  /** `update_csv_record`. The mask is computed once, before any field is
      assigned; every matching row is assigned every field and then stamped. */
  method UpdateRecord(fs: FileSystem, name: string, recordId: string, idColumn: string,
                      updates: Fields, now: string)
    returns (ok: bool, fs': FileSystem)
    ensures ok <==> CanModify(Load(fs, name), idColumn, recordId)
    ensures !ok ==> fs' == fs
    ensures ok ==> fs' == fs[name := Write(ApplyUpdates(Load(fs, name),
                                                        MatchMask(Load(fs, name), idColumn, recordId),
                                                        Stamped(updates, now)))]
  {
    var df := Load(fs, name);
    if IsEmpty(df) || idColumn !in df.columns {
      return false, fs;
    }
    var mask := MatchMask(df, idColumn, recordId);
    if true !in mask {
      return false, fs;
    }
    var df0 := df;
    var i := 0;
    while i < |updates|
      invariant 0 <= i <= |updates|
      invariant |df.rows| == |mask|
      invariant df == ApplyUpdates(df0, mask, updates[..i])
    {
      assert updates[..i + 1][..i] == updates[..i];
      df := SetWhere(df, mask, updates[i].0, updates[i].1);
      i := i + 1;
    }
    assert updates == updates[..i];
    var stamped := Stamped(updates, now);
    assert stamped[..|stamped| - 1] == updates;
    df := SetWhere(df, mask, LastUpdated, Str(now));
    return true, fs[name := Write(df)];
  }

  /** The row an update leaves at one position: a matching row takes the
      last assigned value of every assigned field; every other cell it had is
      kept, and an assigned field that is new to the table is missing in the
      rows that did not match. */
  function RowAfter(r: Record, matched: bool, us: Fields): Record
  {
    map c | c in r.Keys + ColumnSet(Keys(us)) ::
      if matched && c in Keys(us) then LastValue(us, c) else Get(r, c)
  }

  lemma {:induction false} ApplyUpdatesRow(f: Frame, mask: seq<bool>, us: Fields, i: nat)
    requires |mask| == |f.rows| && i < |f.rows|
    ensures ApplyUpdates(f, mask, us).rows[i] == RowAfter(f.rows[i], mask[i], us)
    decreases |us|
  {
    if us == [] {
      assert ColumnSet(Keys(us)) == {};
    } else {
      var n := |us| - 1;
      var init := us[..n];
      ApplyUpdatesRow(f, mask, init, i);
      assert Keys(us) == Keys(init) + [us[n].0];
      var a := ApplyUpdates(f, mask, us).rows[i];
      var b := RowAfter(f.rows[i], mask[i], us);
      assert a.Keys == b.Keys;
      forall c | c in a
        ensures a[c] == b[c]
      {
      }
    }
  }

  /** What a successful update does to the table: the row count is kept, every
      matching row holds the assigned values and the stamp, every cell not
      assigned is kept, and an added column is missing elsewhere. */
  lemma UpdateEffect(f: Frame, idColumn: string, recordId: string, updates: Fields, now: string)
    requires WellFormed(f)
    ensures var g := ApplyUpdates(f, MatchMask(f, idColumn, recordId), Stamped(updates, now));
      |g.rows| == |f.rows| &&
      forall i :: 0 <= i < |f.rows| ==>
        g.rows[i].Keys == f.rows[i].Keys + ColumnSet(Keys(Stamped(updates, now))) &&
        (IsMatch(f.rows[i], idColumn, recordId) ==>
           g.rows[i][LastUpdated] == Str(now) &&
           forall k :: k in Keys(updates) && k != LastUpdated ==> g.rows[i][k] == LastValue(updates, k)) &&
        (forall c :: c in f.rows[i] && c !in Keys(Stamped(updates, now)) ==> g.rows[i][c] == f.rows[i][c]) &&
        (!IsMatch(f.rows[i], idColumn, recordId) ==>
           forall c :: c in f.rows[i] ==> g.rows[i][c] == f.rows[i][c]) &&
        (!IsMatch(f.rows[i], idColumn, recordId) ==>
           forall c :: c in g.rows[i] && c !in f.rows[i] ==> g.rows[i][c] == Null)
  {
    var mask := MatchMask(f, idColumn, recordId);
    var us := Stamped(updates, now);
    var n := |us| - 1;
    assert us[..n] == updates;
    assert Keys(us) == Keys(updates) + [LastUpdated];
    forall i | 0 <= i < |f.rows|
      ensures ApplyUpdates(f, mask, us).rows[i] == RowAfter(f.rows[i], mask[i], us)
    {
      ApplyUpdatesRow(f, mask, us, i);
    }
  }

  /** An update keeps the table well formed. */
  lemma {:induction false} ApplyUpdatesWellFormed(f: Frame, mask: seq<bool>, us: Fields)
    requires WellFormed(f) && |mask| == |f.rows|
    ensures WellFormed(ApplyUpdates(f, mask, us))
    ensures ColumnSet(ApplyUpdates(f, mask, us).columns) == ColumnSet(f.columns) + ColumnSet(Keys(us))
    decreases |us|
  {
    if us == [] {
      assert ColumnSet(Keys(us)) == {};
    } else {
      var n := |us| - 1;
      ApplyUpdatesWellFormed(f, mask, us[..n]);
      assert Keys(us) == Keys(us[..n]) + [us[n].0];
      assert ColumnSet(Keys(us)) == ColumnSet(Keys(us[..n])) + {us[n].0};
      SetWhereWellFormed(ApplyUpdates(f, mask, us[..n]), mask, us[n].0, us[n].1);
    }
  }

  /** One assignment keeps the table well formed and adds at most its column. */
  lemma SetWhereWellFormed(g: Frame, mask: seq<bool>, field: string, v: Value)
    requires WellFormed(g) && |mask| == |g.rows|
    ensures WellFormed(SetWhere(g, mask, field, v))
    ensures ColumnSet(SetWhere(g, mask, field, v).columns) == ColumnSet(g.columns) + {field}
  {
    var h := SetWhere(g, mask, field, v);
    assert ColumnSet(h.columns) == ColumnSet(g.columns) + {field};
    assert Distinct(h.columns);
    forall i | 0 <= i < |h.rows|
      ensures h.rows[i].Keys == ColumnSet(h.columns)
    {
    }
  }

  // ------------------------------------------------------------- delete

  function NotMatching(idColumn: string, recordId: string): Record -> bool
  {
    r => !IsMatch(r, idColumn, recordId)
  }

  function Matching(idColumn: string, recordId: string): Record -> bool
  {
    r => IsMatch(r, idColumn, recordId)
  }

  /** The outcome of a write operation: whether it reported success, and the files after it. */
  datatype Outcome = Outcome(ok: bool, fs: FileSystem)

  /** `delete_csv_record`: with the same failure cases as an update, the table
      is rewritten with the matching rows dropped (`df[~mask]`). */
  function DeleteRecord(fs: FileSystem, name: string, recordId: string, idColumn: string): (r: Outcome)
    ensures r.ok <==> CanModify(Load(fs, name), idColumn, recordId)
    ensures !r.ok ==> r.fs == fs
    ensures r.ok ==> r.fs.Keys == fs.Keys && forall n :: n in fs && n != name ==> r.fs[n] == fs[n]
  {
    var df := Load(fs, name);
    if !CanModify(df, idColumn, recordId) then Outcome(false, fs)
    else Outcome(true, fs[name := Write(Deleted(df, idColumn, recordId))])
  }

  /** The table a delete leaves: the rows that do not match, in order. */
  function Deleted(f: Frame, idColumn: string, recordId: string): Frame
  {
    Frame(f.columns, Where(f.rows, NotMatching(idColumn, recordId)))
  }

  /** The rows a delete keeps are exactly the non-matching ones, in their
      original order, and as many fewer rows as there were matches. */
  lemma DeletedRows(f: Frame, idColumn: string, recordId: string)
    ensures var g := Deleted(f, idColumn, recordId);
      g.columns == f.columns &&
      IsSubsequence(g.rows, f.rows) &&
      |g.rows| + |Where(f.rows, Matching(idColumn, recordId))| == |f.rows| &&
      forall r :: r in g.rows <==> r in f.rows && !IsMatch(r, idColumn, recordId)
  {
    var p := NotMatching(idColumn, recordId);
    WhereComplementCount(f.rows, Matching(idColumn, recordId), p);
    WhereIsSubsequence(f.rows, p);
    forall r | r in f.rows && !IsMatch(r, idColumn, recordId)
      ensures r in Deleted(f, idColumn, recordId).rows
    {
      WhereMember(f.rows, p, r);
    }
  }

  /** A successful delete rewrites the file with that table, so that it
      reads back as that table. */
  lemma DeleteReadsBack(fs: FileSystem, name: string, recordId: string, idColumn: string)
    requires CanModify(Load(fs, name), idColumn, recordId)
    ensures Load(DeleteRecord(fs, name, recordId, idColumn).fs, name) ==
              NormalizeFrame(Deleted(Load(fs, name), idColumn, recordId))
  {
    var f := Load(fs, name);
    var kept := Deleted(f, idColumn, recordId);
    forall i | 0 <= i < |kept.rows|
      ensures kept.rows[i].Keys == ColumnSet(kept.columns)
    {
      var r := kept.rows[i];
      assert r in f.rows;
      var k :| 0 <= k < |f.rows| && f.rows[k] == r;
    }
    LoadAfterWrite(fs, name, kept);
  }

  // ------------------------------------------------------------- search

  /** The text of a cell as `astype(str)` renders it: a missing value
      becomes "nan". */
  function AsText(v: Value): string
  {
    match v
    case Str(s) => s
    case Num(n) => IntToString(n)
    case Null => "nan"
  }

  /** One search criterion on one row. A text value matches when it occurs
      in the cell's text ignoring case; any other value matches an equal
      cell (a missing value matches nothing); a column the table does not
      have is ignored. */
  predicate MatchesCriterion(r: Record, cols: seq<string>, column: string, v: Value)
  {
    column !in cols ||
    match v
    case Str(s) => IsSubstring(Lower(s), Lower(AsText(Get(r, column))))
    case Num(_) => Get(r, column) == v
    case Null => false
  }

  /** Every criterion holds: the criteria are and-ed together. */
  predicate MatchesAll(r: Record, cols: seq<string>, criteria: Fields)
    decreases |criteria|
  {
    criteria == [] ||
    var n := |criteria| - 1;
    MatchesAll(r, cols, criteria[..n]) && MatchesCriterion(r, cols, criteria[n].0, criteria[n].1)
  }

  function Matcher(cols: seq<string>, criteria: Fields): Record -> bool
  {
    r => MatchesAll(r, cols, criteria)
  }

  function Criterion(cols: seq<string>, column: string, v: Value): Record -> bool
  {
    r => MatchesCriterion(r, cols, column, v)
  }

  /** Adding one criterion narrows the matches by that criterion, and
      leaves them as they were when its column is not in the table. */
  lemma MatcherStep(rows: seq<Record>, cols: seq<string>, criteria: Fields, i: nat)
    requires i < |criteria|
    ensures Where(rows, Matcher(cols, criteria[..i + 1])) ==
      Where(Where(rows, Matcher(cols, criteria[..i])), Criterion(cols, criteria[i].0, criteria[i].1))
    ensures criteria[i].0 !in cols ==>
      Where(rows, Matcher(cols, criteria[..i + 1])) == Where(rows, Matcher(cols, criteria[..i]))
  {
    var (column, value) := criteria[i];
    var keep := Criterion(cols, column, value);
    assert criteria[..i + 1][..i] == criteria[..i];
    assert forall r :: Matcher(cols, criteria[..i + 1])(r) == (Matcher(cols, criteria[..i])(r) && keep(r));
    WhereWhere(rows, Matcher(cols, criteria[..i]), keep, Matcher(cols, criteria[..i + 1]));
    if column !in cols {
      WhereCongruent(rows, Matcher(cols, criteria[..i]), Matcher(cols, criteria[..i + 1]));
    }
  }

  /** The table `search_csv_records` returns: an empty table is returned as
      it is, otherwise its rows matching every criterion. */
  function Searched(f: Frame, criteria: Fields): Frame
  {
    if IsEmpty(f) then f else Frame(f.columns, Where(f.rows, Matcher(f.columns, criteria)))
  }

  /** `search_csv_records`: narrows the loaded table one criterion at a time. */
  method SearchRecords(fs: FileSystem, name: string, criteria: Fields) returns (result: Frame)
    ensures result == Searched(Load(fs, name), criteria)
  {
    var df := Load(fs, name);
    if IsEmpty(df) {
      return df;
    }
    var cols := df.columns;
    var rows := df.rows;
    var i := 0;
    assert Where(df.rows, Matcher(cols, criteria[..0])) == df.rows by {
      WhereAll(df.rows, Matcher(cols, criteria[..0]));
    }
    while i < |criteria|
      invariant 0 <= i <= |criteria|
      invariant rows == Where(df.rows, Matcher(cols, criteria[..i]))
    {
      var (column, value) := criteria[i];
      MatcherStep(df.rows, cols, criteria, i);
      if column in cols {
        rows := Where(rows, Criterion(cols, column, value));
      }
      i := i + 1;
    }
    assert criteria[..i] == criteria;
    return Frame(cols, rows);
  }

  /** A search result is a subsequence of the table, and a row is in it
      exactly when it is in the table and meets every criterion. */
  lemma SearchedRows(f: Frame, criteria: Fields)
    requires !IsEmpty(f)
    ensures Searched(f, criteria).columns == f.columns
    ensures IsSubsequence(Searched(f, criteria).rows, f.rows)
    ensures forall r :: r in Searched(f, criteria).rows <==> r in f.rows && MatchesAll(r, f.columns, criteria)
  {
    var p := Matcher(f.columns, criteria);
    WhereIsSubsequence(f.rows, p);
    forall r | r in f.rows && MatchesAll(r, f.columns, criteria)
      ensures r in Searched(f, criteria).rows
    {
      WhereMember(f.rows, p, r);
    }
  }

  /** A row meets a conjunction of criteria exactly when it meets each one. */
  lemma {:induction false} MatchesAllEach(r: Record, cols: seq<string>, criteria: Fields)
    ensures MatchesAll(r, cols, criteria) <==>
              forall j :: 0 <= j < |criteria| ==> MatchesCriterion(r, cols, criteria[j].0, criteria[j].1)
    decreases |criteria|
  {
    if criteria != [] {
      var n := |criteria| - 1;
      MatchesAllEach(r, cols, criteria[..n]);
      assert forall j :: 0 <= j < n ==> criteria[..n][j] == criteria[j];
    }
  }

  /** An empty cell is rendered "nan", so a text criterion that occurs in
      "nan" (such as "NaN", or just "a") selects the rows where that column
      is empty. */
  lemma EmptyCellMatchesNan(r: Record, cols: seq<string>, column: string)
    requires column in cols && Get(r, column) == Null
    ensures MatchesCriterion(r, cols, column, Str("NaN"))
  {
    assert Lower("NaN") == "nan";
    assert StartsWith(Lower(AsText(Get(r, column)))[0..], Lower("NaN"));
  }

  // -------------------------------------------------------------- merge

  /** Re-key a row to the given columns, missing where it has no value. */
  function Pad(r: Record, cols: seq<string>): (p: Record)
    ensures p.Keys == ColumnSet(cols)
  {
    map c | c in cols :: Get(r, c)
  }

  function PadAll(rows: seq<Record>, cols: seq<string>): (ps: seq<Record>)
    ensures |ps| == |rows|
    ensures forall i :: 0 <= i < |rows| ==> ps[i] == Pad(rows[i], cols)
  {
    seq(|rows|, i requires 0 <= i < |rows| => Pad(rows[i], cols))
  }

  /** `pd.concat([a, b], ignore_index=True)`: the columns of `a`, then the
      new columns of `b`; the rows of `a` then those of `b`, each padded. */
  function Concat(a: Frame, b: Frame): (r: Frame)
    ensures WellFormed(r)
    ensures |r.rows| == |a.rows| + |b.rows|
    ensures ColumnSet(r.columns) == ColumnSet(a.columns) + ColumnSet(b.columns)
  {
    var cols := Dedupe(a.columns + b.columns);
    assert ColumnSet(cols) == ColumnSet(a.columns) + ColumnSet(b.columns);
    Frame(cols, PadAll(a.rows, cols) + PadAll(b.rows, cols))
  }

  /** The tables merged from `names`, in order: each existing, non-empty one
      is concatenated on. */
  function Merged(fs: FileSystem, names: seq<string>): (r: Frame)
    ensures WellFormed(r)
    decreases |names|
  {
    if names == [] then EmptyFrame
    else
      var n := |names| - 1;
      var m := Merged(fs, names[..n]);
      var df := Load(fs, names[n]);
      if names[n] in fs && !IsEmpty(df) then Concat(m, df) else m
  }

  /** The merged table as it is written: optionally without repeated rows. */
  function MergeResult(fs: FileSystem, names: seq<string>, removeDuplicates: bool): Frame
  {
    var m := Merged(fs, names);
    if removeDuplicates then Frame(m.columns, Dedupe(m.rows)) else m
  }

  /** `merge_csv_files`: concatenates the inputs in a loop, fails when nothing
      was merged, otherwise writes the result. */
  method MergeFiles(fs: FileSystem, names: seq<string>, output: string, removeDuplicates: bool)
    returns (ok: bool, fs': FileSystem)
    ensures ok <==> !IsEmpty(Merged(fs, names))
    ensures !ok ==> fs' == fs
    ensures ok ==> fs' == fs[output := Write(MergeResult(fs, names, removeDuplicates))]
  {
    var merged := EmptyFrame;
    var i := 0;
    while i < |names|
      invariant 0 <= i <= |names|
      invariant merged == Merged(fs, names[..i])
    {
      assert names[..i + 1][..i] == names[..i];
      if names[i] in fs {
        var df := Load(fs, names[i]);
        if !IsEmpty(df) {
          merged := Concat(merged, df);
        }
      }
      i := i + 1;
    }
    assert names[..i] == names;
    if IsEmpty(merged) {
      return false, fs;
    }
    if removeDuplicates {
      merged := Frame(merged.columns, Dedupe(merged.rows));
    }
    return true, fs[output := Write(merged)];
  }

  /** A row of the right-hand table is in the concatenation, re-keyed. */
  lemma ConcatHasRight(a: Frame, b: Frame, j: nat)
    requires j < |b.rows|
    ensures Pad(b.rows[j], Concat(a, b).columns) in Concat(a, b).rows
  {
    var c := Concat(a, b);
    var left, right := PadAll(a.rows, c.columns), PadAll(b.rows, c.columns);
    ConcatRows(a, b);
    InRight(left, right, j);
  }

  lemma InRight(left: seq<Record>, right: seq<Record>, j: nat)
    requires j < |right|
    ensures right[j] in left + right
  {
    assert (left + right)[|left| + j] == right[j];
  }

  lemma ConcatRows(a: Frame, b: Frame)
    ensures var c := Concat(a, b);
      c.rows == PadAll(a.rows, c.columns) + PadAll(b.rows, c.columns)
  {
  }

  /** A row kept, re-keyed, in the left-hand table is in the concatenation,
      re-keyed to its columns. */
  lemma ConcatHasLeft(a: Frame, b: Frame, r: Record)
    requires r.Keys <= ColumnSet(a.columns) && Pad(r, a.columns) in a.rows
    ensures Pad(r, Concat(a, b).columns) in Concat(a, b).rows
  {
    var c := Concat(a, b);
    var i :| 0 <= i < |a.rows| && a.rows[i] == Pad(r, a.columns);
    PadTwice(r, a.columns, c.columns);
    assert c.rows[i] == Pad(a.rows[i], c.columns);
  }

  /** Every row of every non-empty input is in the merged table, re-keyed to
      the merged columns. */
  lemma {:induction false} MergedContainsInputs(fs: FileSystem, names: seq<string>, k: nat, j: nat)
    requires k < |names| && names[k] in fs
    requires !IsEmpty(Load(fs, names[k])) && j < |Load(fs, names[k]).rows|
    ensures ColumnSet(Load(fs, names[k]).columns) <= ColumnSet(Merged(fs, names).columns)
    ensures Pad(Load(fs, names[k]).rows[j], Merged(fs, names).columns) in Merged(fs, names).rows
    decreases |names|
  {
    var n := |names| - 1;
    var init := names[..n];
    var m := Merged(fs, init);
    var df := Load(fs, names[n]);
    if k == n {
      ConcatHasRight(m, df, j);
    } else {
      assert init[k] == names[k];
      MergedContainsInputs(fs, init, k, j);
      if names[n] in fs && !IsEmpty(df) {
        var r := Load(fs, names[k]).rows[j];
        assert r.Keys == ColumnSet(Load(fs, names[k]).columns);
        ConcatHasLeft(m, df, r);
      }
    }
  }

  /** Re-keying twice is re-keying once, when the first keeps all of the
      row's columns. */
  lemma PadTwice(r: Record, c1: seq<string>, c2: seq<string>)
    requires r.Keys <= ColumnSet(c1)
    ensures Pad(Pad(r, c1), c2) == Pad(r, c2)
  {
  }

  /** Without de-duplication the merged table has as many rows as the
      non-empty inputs together. */
  function InputRows(fs: FileSystem, names: seq<string>): nat
    decreases |names|
  {
    if names == [] then 0
    else
      var n := |names| - 1;
      var df := Load(fs, names[n]);
      InputRows(fs, names[..n]) + (if names[n] in fs && !IsEmpty(df) then |df.rows| else 0)
  }

  lemma {:induction false} MergedRowCount(fs: FileSystem, names: seq<string>)
    ensures |Merged(fs, names).rows| == InputRows(fs, names)
    decreases |names|
  {
    if names != [] {
      MergedRowCount(fs, names[..|names| - 1]);
    }
  }

  /** With de-duplication no two rows of the result are equal, and every
      merged row is still represented. */
  lemma MergeDeduplicated(fs: FileSystem, names: seq<string>)
    ensures Distinct(MergeResult(fs, names, true).rows)
    ensures forall r :: r in Merged(fs, names).rows <==> r in MergeResult(fs, names, true).rows
    ensures |MergeResult(fs, names, true).rows| <= InputRows(fs, names)
  {
    MergedRowCount(fs, names);
  }

  // ------------------------------------------------------------- export

  /** `export_filtered_data`: the search result is written to the export
      file unless it is empty. */
  method ExportFiltered(fs: FileSystem, name: string, filters: Fields, exportName: string)
    returns (ok: bool, fs': FileSystem)
    ensures ok <==> !IsEmpty(Searched(Load(fs, name), filters))
    ensures !ok ==> fs' == fs
    ensures ok ==> fs' == fs[exportName := Write(Searched(Load(fs, name), filters))]
  {
    var filtered := SearchRecords(fs, name, filters);
    if IsEmpty(filtered) {
      return false, fs;
    }
    return true, fs[exportName := Write(filtered)];
  }

  // ----------------------------------------------------------- validate

  /** The `error` entry of a validation: its message is fixed for an empty
      table and names the missing columns otherwise. */
  datatype ValidationError = EmptyOrMissingFile | MissingColumns(columns: set<string>)

  datatype Validation = Validation(valid: bool, missing: set<string>, extra: set<string>,
                                   recordCount: Option<nat>, columnCount: Option<nat>,
                                   error: Option<ValidationError>)

  /** `validate_csv_structure`. */
  function ValidateStructure(fs: FileSystem, name: string, required: seq<string>): (v: Validation)
    ensures IsEmpty(Load(fs, name)) ==>
              !v.valid && v.missing == ColumnSet(required) && v.extra == {} && v.recordCount == None &&
              v.columnCount == None && v.error == Some(EmptyOrMissingFile)
    ensures !IsEmpty(Load(fs, name)) ==>
              v.recordCount == Some(|Load(fs, name).rows|) && v.columnCount == Some(|Load(fs, name).columns|) &&
              v.error == (if v.valid then None else Some(MissingColumns(v.missing))) &&
              (forall c :: c in v.missing <==> c in required && c !in Load(fs, name).columns) &&
              (forall c :: c in v.extra <==> c in Load(fs, name).columns && c !in required)
    ensures v.valid <==> !IsEmpty(Load(fs, name)) && forall c :: c in required ==> c in Load(fs, name).columns
  {
    var df := Load(fs, name);
    if IsEmpty(df) then Validation(false, ColumnSet(required), {}, None, None, Some(EmptyOrMissingFile))
    else
      var existing, req := ColumnSet(df.columns), ColumnSet(required);
      var missing := req - existing;
      assert (forall c :: c in required ==> c in df.columns) ==> missing == {};
      assert missing == {} ==> (forall c :: c in required ==> c in df.columns) by {
        if missing == {} {
          forall c | c in required
            ensures c in df.columns
          {
            assert c !in missing;
          }
        }
      }
      Validation(missing == {}, missing, existing - req, Some(|df.rows|), Some(|df.columns|),
                 if missing == {} then None else Some(MissingColumns(missing)))
  }
}
