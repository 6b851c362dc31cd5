/**
 * `TimeSeriesExtrapolator` up to the end of its clean-up phase: locating the
 * snapshots (recording the earliest and latest date of all of them),
 * collecting the project keys and the earliest creation date, building the
 * working set of copied snapshots and reconciling it.
 */
module Extrapolator {
  import opened Wrappers
  import opened Calendar
  import opened Tables
  import opened Locator
  import opened Reconciliation

  // ---------------------------------------------------------------------
  // Project keys and creation dates
  // ---------------------------------------------------------------------

  /** The key `collect_project_keys_and_dates` takes from a row: as in clean-up, but a NaN homepage becomes `''`. */
  function CollectKey(r: Row): (k: Option<ProjectKey>)
    ensures k.Some? <==> RowKey(r).Some?
    ensures k.Some? ==> k.value.name == Get(r, "name") && k.value.homepage != Missing
    ensures k.Some? ==> k.value.homepage == if Get(r, "homepage") == Missing then Text("") else Get(r, "homepage")
  {
    match RowKey(r)
    case None => None
    case Some(k) => Some(if k.homepage == Missing then ProjectKey(k.name, Text("")) else k)
  }

  /** A file that is read: not empty, and with both key columns. */
  predicate Usable(t: Table) {
    !IsEmpty(t) && "name" in t.columns && "homepage" in t.columns
  }

  /**
   * The creation date of a row: a non-empty `created_at` string that `parse`
   * (standing for `datetime.fromisoformat`) accepts.
   */
  function CreatedAt(r: Row, parse: string -> Option<int>): Option<int> {
    match Get(r, "created_at")
    case Text(s) => if s == "" then None else parse(s)
    case _ => None
  }

  function RowKeys(rows: seq<Row>): set<ProjectKey> {
    if rows == [] then {}
    else
      RowKeys(rows[..|rows| - 1])
      + match CollectKey(rows[|rows| - 1]) case None => {} case Some(k) => {k}
  }

  function RowDates(rows: seq<Row>, parse: string -> Option<int>): set<int> {
    if rows == [] then {}
    else
      var r := rows[|rows| - 1];
      RowDates(rows[..|rows| - 1], parse)
      + if CollectKey(r).Some? && CreatedAt(r, parse).Some? then {CreatedAt(r, parse).value} else {}
  }

  function FileKeys(files: seq<SnapshotFile>): set<ProjectKey> {
    if files == [] then {}
    else
      var t := files[|files| - 1].table;
      FileKeys(files[..|files| - 1]) + if Usable(t) then RowKeys(t.rows) else {}
  }

  function FileDates(files: seq<SnapshotFile>, parse: string -> Option<int>): set<int> {
    if files == [] then {}
    else
      var t := files[|files| - 1].table;
      FileDates(files[..|files| - 1], parse) + if Usable(t) then RowDates(t.rows, parse) else {}
  }

  /** The keys of a file are exactly the keys of its rows that have a name. */
  lemma {:induction false} RowKeysSpec(rows: seq<Row>, k: ProjectKey)
    ensures k in RowKeys(rows) <==> exists j :: 0 <= j < |rows| && CollectKey(rows[j]) == Some(k)
  {
    if rows != [] {
      var pre := rows[..|rows| - 1];
      var x := rows[|rows| - 1];
      RowKeysSpec(pre, k);
      assert k in RowKeys(rows) <==> k in RowKeys(pre) || CollectKey(x) == Some(k);
      if exists j :: 0 <= j < |pre| && CollectKey(pre[j]) == Some(k) {
        var j :| 0 <= j < |pre| && CollectKey(pre[j]) == Some(k);
        assert rows[j] == pre[j];
      } else if CollectKey(x) == Some(k) {
        assert rows[|rows| - 1] == x;
      } else {
        forall j | 0 <= j < |rows| ensures !(CollectKey(rows[j]) == Some(k)) {
          if j < |pre| {
            assert pre[j] == rows[j];
          }
        }
      }
    }
  }

  /** The creation dates of a file are exactly the parsed dates of its rows that have a name. */
  lemma {:induction false} RowDatesSpec(rows: seq<Row>, parse: string -> Option<int>, t: int)
    ensures t in RowDates(rows, parse) <==>
      exists j :: 0 <= j < |rows| && CollectKey(rows[j]).Some? && CreatedAt(rows[j], parse) == Some(t)
  {
    if rows != [] {
      var pre := rows[..|rows| - 1];
      var x := rows[|rows| - 1];
      RowDatesSpec(pre, parse, t);
      assert t in RowDates(rows, parse) <==> t in RowDates(pre, parse) || (CollectKey(x).Some? && CreatedAt(x, parse) == Some(t));
      if exists j :: 0 <= j < |pre| && CollectKey(pre[j]).Some? && CreatedAt(pre[j], parse) == Some(t) {
        var j :| 0 <= j < |pre| && CollectKey(pre[j]).Some? && CreatedAt(pre[j], parse) == Some(t);
        assert rows[j] == pre[j];
      } else if CollectKey(x).Some? && CreatedAt(x, parse) == Some(t) {
        assert rows[|rows| - 1] == x;
      } else {
        forall j | 0 <= j < |rows| ensures !(CollectKey(rows[j]).Some? && CreatedAt(rows[j], parse) == Some(t)) {
          if j < |pre| {
            assert pre[j] == rows[j];
          }
        }
      }
    }
  }

  /** The key set is the union of the keys of the usable files; other files contribute nothing. */
  lemma {:induction false} FileKeysSpec(files: seq<SnapshotFile>, k: ProjectKey)
    ensures k in FileKeys(files) <==>
      exists i :: 0 <= i < |files| && Usable(files[i].table) && k in RowKeys(files[i].table.rows)
  {
    if files != [] {
      var pre := files[..|files| - 1];
      var x := files[|files| - 1];
      FileKeysSpec(pre, k);
      assert k in FileKeys(files) <==> k in FileKeys(pre) || (Usable(x.table) && k in RowKeys(x.table.rows));
      if exists i :: 0 <= i < |pre| && Usable(pre[i].table) && k in RowKeys(pre[i].table.rows) {
        var i :| 0 <= i < |pre| && Usable(pre[i].table) && k in RowKeys(pre[i].table.rows);
        assert files[i] == pre[i];
      } else if Usable(x.table) && k in RowKeys(x.table.rows) {
        assert files[|files| - 1] == x;
      } else {
        forall i | 0 <= i < |files| ensures !(Usable(files[i].table) && k in RowKeys(files[i].table.rows)) {
          if i < |pre| {
            assert pre[i] == files[i];
          }
        }
      }
    }
  }

  /** The creation dates are the union of those of the usable files. */
  lemma {:induction false} FileDatesSpec(files: seq<SnapshotFile>, parse: string -> Option<int>, t: int)
    ensures t in FileDates(files, parse) <==>
      exists i :: 0 <= i < |files| && Usable(files[i].table) && t in RowDates(files[i].table.rows, parse)
  {
    if files != [] {
      var pre := files[..|files| - 1];
      var x := files[|files| - 1];
      FileDatesSpec(pre, parse, t);
      assert t in FileDates(files, parse) <==> t in FileDates(pre, parse) || (Usable(x.table) && t in RowDates(x.table.rows, parse));
      if exists i :: 0 <= i < |pre| && Usable(pre[i].table) && t in RowDates(pre[i].table.rows, parse) {
        var i :| 0 <= i < |pre| && Usable(pre[i].table) && t in RowDates(pre[i].table.rows, parse);
        assert files[i] == pre[i];
      } else if Usable(x.table) && t in RowDates(x.table.rows, parse) {
        assert files[|files| - 1] == x;
      } else {
        forall i | 0 <= i < |files| ensures !(Usable(files[i].table) && t in RowDates(files[i].table.rows, parse)) {
          if i < |pre| {
            assert pre[i] == files[i];
          }
        }
      }
    }
  }

  lemma LeastOf(s: set<int>) returns (m: int)
    requires s != {}
    ensures m in s && forall z :: z in s ==> m <= z
  {
    assert exists y :: y in s by {
      if forall y :: y !in s {
        assert false;
      }
    }
    var x :| x in s;
    var rest := s - {x};
    if rest == {} {
      assert s == {x};
      m := x;
    } else {
      var r := LeastOf(rest);
      m := if r <= x then r else x;
      forall z | z in s ensures m <= z {
        if z != x {
          assert z in rest;
        }
      }
    }
  }

  lemma MinExists(s: set<int>)
    requires s != {}
    ensures exists m :: m in s && forall z :: z in s ==> m <= z
  {
    var m := LeastOf(s);
  }

  /** `min()` of a non-empty set of instants. */
  function Min(s: set<int>): (m: int)
    requires s != {}
    ensures m in s && forall x :: x in s ==> m <= x
  {
    MinExists(s);
    var m :| m in s && forall x :: x in s ==> m <= x; m
  }

  /** The loop over the rows of one file in `collect_project_keys_and_dates`. */
  method CollectFromRows(rows: seq<Row>, parse: string -> Option<int>) returns (keys: set<ProjectKey>, created: set<int>)
    ensures keys == RowKeys(rows) && created == RowDates(rows, parse)
  {
    keys := {};
    created := {};
    var j := 0;
    while j < |rows|
      invariant 0 <= j <= |rows|
      invariant keys == RowKeys(rows[..j]) && created == RowDates(rows[..j], parse)
    {
      assert rows[..j + 1][..j] == rows[..j];
      var r := rows[j];
      var name := Get(r, "name");
      if name != Missing && name != Text("") {
        var homepage := Get(r, "homepage");
        if homepage == Missing {
          homepage := Text("");
        }
        keys := keys + {ProjectKey(name, homepage)};
        var createdAt := Get(r, "created_at");
        if createdAt.Text? && createdAt.text != "" {
          var parsed := parse(createdAt.text);
          if parsed.Some? {
            created := created + {parsed.value};
          }
        }
      }
      j := j + 1;
    }
    assert rows[..|rows|] == rows;
  }

  /** The loop over the files in `collect_project_keys_and_dates`. */
  method CollectFromFiles(files: seq<SnapshotFile>, parse: string -> Option<int>)
    returns (keys: set<ProjectKey>, created: set<int>, earliest: Option<int>)
    ensures keys == FileKeys(files) && created == FileDates(files, parse)
    ensures earliest == if created == {} then None else Some(Min(created))
  {
    keys := {};
    created := {};
    var i := 0;
    while i < |files|
      invariant 0 <= i <= |files|
      invariant keys == FileKeys(files[..i]) && created == FileDates(files[..i], parse)
    {
      assert files[..i + 1][..i] == files[..i];
      var t := files[i].table;
      if !IsEmpty(t) && "name" in t.columns && "homepage" in t.columns {
        var k, c := CollectFromRows(t.rows, parse);
        keys := keys + k;
        created := created + c;
      }
      i := i + 1;
    }
    assert files[..|files|] == files;
    earliest := if created == {} then None else Some(Min(created));
  }

  // ---------------------------------------------------------------------
  // The working set
  // ---------------------------------------------------------------------

  /** A file named exactly `YYYY-MM-DD_projects.csv` for its own date. */
  predicate Canonical(f: SnapshotFile) {
    ValidDate(f.date) && f.name == FileName(f.date)
  }

  /**
   * The copied files as clean-up reads them back: the table of each
   * canonically named file, under its date. A file whose name only ends in
   * the pattern is copied but never read.
   */
  function WorkingSetOf(files: seq<SnapshotFile>): WorkingSet {
    if files == [] then map[]
    else
      var w := WorkingSetOf(files[..|files| - 1]);
      var f := files[|files| - 1];
      if Canonical(f) then w[f.date := f.table] else w
  }

  /** The working set holds a date exactly when a canonically named file of that date was copied. */
  lemma {:induction false} WorkingSetDates(files: seq<SnapshotFile>, d: Date)
    ensures d in WorkingSetOf(files) <==> exists i :: 0 <= i < |files| && Canonical(files[i]) && files[i].date == d
  {
    if files != [] {
      var pre := files[..|files| - 1];
      var f := files[|files| - 1];
      WorkingSetDates(pre, d);
      var last := Canonical(f) && f.date == d;
      assert d in WorkingSetOf(files) <==> d in WorkingSetOf(pre) || last;
      if exists i :: 0 <= i < |pre| && Canonical(pre[i]) && pre[i].date == d {
        var i :| 0 <= i < |pre| && Canonical(pre[i]) && pre[i].date == d;
        assert files[i] == pre[i];
      } else if last {
        assert files[|files| - 1] == f;
      } else {
        forall i | 0 <= i < |files| ensures !(Canonical(files[i]) && files[i].date == d) {
          if i < |pre| {
            assert pre[i] == files[i];
          }
        }
      }
    }
  }

  /** With distinct file names, the working set holds each canonically named file's own table. */
  lemma {:induction false} WorkingSetTable(files: seq<SnapshotFile>, i: int)
    requires DistinctNames(files)
    requires 0 <= i < |files| && Canonical(files[i])
    ensures files[i].date in WorkingSetOf(files)
    ensures WorkingSetOf(files)[files[i].date] == files[i].table
  {
    var pre := files[..|files| - 1];
    var f := files[|files| - 1];
    if i < |pre| {
      assert pre[i] == files[i];
      WorkingSetTable(pre, i);
    }
  }

  // ---------------------------------------------------------------------
  // The class
  // ---------------------------------------------------------------------

  class TimeSeriesExtrapolator {
    /** The history directory, as the listing of its snapshot files. */
    const history: Directory
    var csvFiles: seq<SnapshotFile>
    var originalRegionDateSequence: seq<Date>
    var uniqueProjectKeys: set<ProjectKey>
    var createdDates: set<int>
    var earliestCreationDate: Option<int>
    var earliestCsvDate: Option<Date>
    var latestCsvDate: Option<Date>
    var projectFirstAppearance: FirstMap
    /** The extrapolation directory, when it exists. */
    var extrapolationDir: Option<WorkingSet>

    /** `existing` is what the extrapolation directory holds, if it exists, when the object is made. */
    constructor(history: Directory, existing: Option<WorkingSet>)
      ensures this.history == history && extrapolationDir == existing
      ensures csvFiles == [] && originalRegionDateSequence == []
      ensures uniqueProjectKeys == {} && createdDates == {} && earliestCreationDate == None
      ensures earliestCsvDate == None && latestCsvDate == None && projectFirstAppearance == map[]
    {
      this.history := history;
      csvFiles := [];
      originalRegionDateSequence := [];
      uniqueProjectKeys := {};
      createdDates := {};
      earliestCreationDate := None;
      earliestCsvDate := None;
      latestCsvDate := None;
      projectFirstAppearance := map[];
      extrapolationDir := existing;
    }

    /**
     * `_find_csv_files`: the sampled files and their dates, index by index.
     * The earliest and latest dates of all located files are recorded
     * before sampling, and only when some file is located.
     */
    method FindCsvFiles(timeStep: int) returns (files: seq<SnapshotFile>, dates: seq<Date>)
      modifies this`earliestCsvDate, this`latestCsvDate
      ensures files == Located(history, timeStep) && dates == Dates(files)
      ensures var all := SortByDate(Matching(history));
        if all == [] then earliestCsvDate == old(earliestCsvDate) && latestCsvDate == old(latestCsvDate)
        else earliestCsvDate == Some(all[0].date) && latestCsvDate == Some(all[|all| - 1].date)
    {
      var all;
      all, files := Locate(history, timeStep);
      if all != [] {
        earliestCsvDate := Some(all[0].date);
        latestCsvDate := Some(all[|all| - 1].date);
      }
      dates := Dates(files);
    }

    /**
     * `collect_project_keys_and_dates`: raises when no file is located;
     * otherwise collects the keys and the parsed creation dates of every
     * usable file and the earliest of those dates.
     */
    method CollectProjectKeysAndDates(timeStep: int, parse: string -> Option<int>)
      returns (r: Result<(set<ProjectKey>, Option<int>), Failure>)
      modifies this`csvFiles, this`originalRegionDateSequence, this`earliestCsvDate, this`latestCsvDate
      modifies this`uniqueProjectKeys, this`createdDates, this`earliestCreationDate
      ensures csvFiles == Located(history, timeStep) && originalRegionDateSequence == Dates(csvFiles)
      ensures var all := SortByDate(Matching(history));
        if all == [] then earliestCsvDate == old(earliestCsvDate) && latestCsvDate == old(latestCsvDate)
        else earliestCsvDate == Some(all[0].date) && latestCsvDate == Some(all[|all| - 1].date)
      ensures csvFiles == [] ==>
        && r == Err(NoCsvFiles)
        && uniqueProjectKeys == old(uniqueProjectKeys) && createdDates == old(createdDates)
        && earliestCreationDate == old(earliestCreationDate)
      ensures csvFiles != [] ==>
        && uniqueProjectKeys == FileKeys(csvFiles) && createdDates == FileDates(csvFiles, parse)
        && earliestCreationDate == (if createdDates == {} then None else Some(Min(createdDates)))
        && r == Ok((uniqueProjectKeys, earliestCreationDate))
    {
      var files, dates := FindCsvFiles(timeStep);
      if files == [] {
        StoreFiles(files, dates);
        return Err(NoCsvFiles);
      }
      var keys, created, earliest := CollectFromFiles(files, parse);
      StoreFiles(files, dates);
      StoreCollected(keys, created, earliest);
      r := Ok((keys, earliest));
    }

    /** `self.csv_files, self.original_region_date_sequence = ...`. */
    method StoreFiles(files: seq<SnapshotFile>, dates: seq<Date>)
      modifies this`csvFiles, this`originalRegionDateSequence
      ensures csvFiles == files && originalRegionDateSequence == dates
    {
      csvFiles, originalRegionDateSequence := files, dates;
    }

    /** The key set, the creation dates and the earliest of them, as collected. */
    method StoreCollected(keys: set<ProjectKey>, created: set<int>, earliest: Option<int>)
      modifies this`uniqueProjectKeys, this`createdDates, this`earliestCreationDate
      ensures uniqueProjectKeys == keys && createdDates == created && earliestCreationDate == earliest
    {
      uniqueProjectKeys, createdDates, earliestCreationDate := keys, created, earliest;
    }

    /**
     * `clean_up_original_data`: without an extrapolation directory, returns
     * `{}` and changes nothing; otherwise runs both passes over the sorted
     * date sequence, stores the first appearances and returns them with
     * the number of files written back.
     */
    method CleanUpOriginalData() returns (r: FirstMap, modifiedFiles: nat)
      modifies this`projectFirstAppearance, this`extrapolationDir
      ensures old(extrapolationDir).None? ==>
        && r == map[] && modifiedFiles == 0
        && extrapolationDir == old(extrapolationDir) && projectFirstAppearance == old(projectFirstAppearance)
      ensures old(extrapolationDir).Some? ==>
        var w := old(extrapolationDir).value;
        var dates := SortDates(originalRegionDateSequence);
        && r == Pass1(w, dates) && projectFirstAppearance == r
        && extrapolationDir == Some(Pass2(w, dates, r).0) && modifiedFiles == Pass2(w, dates, r).1
    {
      if extrapolationDir.None? {
        return map[], 0;
      }
      var w := extrapolationDir.value;
      r := FindFirstAppearances(w, SortDates(originalRegionDateSequence));
      var w';
      w', modifiedFiles := EnsureConsistency(w, SortDates(originalRegionDateSequence), r);
      extrapolationDir := Some(w');
      projectFirstAppearance := r;
    }
  }

  /**
   * `create_extrapolation_directory`: collect keys and dates (raising when
   * there is no file), replace the extrapolation directory by a copy of the
   * sampled files, clean it up, and return it with the date sequence.
   */
  method CreateExtrapolationDirectory(history: Directory, timeStep: int, existing: Option<WorkingSet>,
                                      parse: string -> Option<int>)
    returns (r: Result<(WorkingSet, seq<Date>), Failure>)
    ensures var files := Located(history, timeStep);
      var w := WorkingSetOf(files);
      var dates := SortDates(Dates(files));
      r == if files == [] then Err(NoCsvFiles) else Ok((Pass2(w, dates, Pass1(w, dates)).0, Dates(files)))
  {
    var e := new TimeSeriesExtrapolator(history, existing);
    var collected := e.CollectProjectKeysAndDates(timeStep, parse);
    if collected.Err? {
      return Err(collected.error);
    }
    var files, dates := e.csvFiles, e.originalRegionDateSequence;
    // The state after each step, stated as it is reached.
    assert files == Located(history, timeStep) && dates == Dates(files) && files != [];
    e.extrapolationDir := Some(WorkingSetOf(files));
    assert e.originalRegionDateSequence == dates;
    var first, count := e.CleanUpOriginalData();
    assert e.originalRegionDateSequence == dates;
    ghost var w := WorkingSetOf(files);
    assert e.extrapolationDir == Some(Pass2(w, SortDates(dates), Pass1(w, SortDates(dates))).0);
    r := Ok((e.extrapolationDir.value, dates));
  }

  // ---------------------------------------------------------------------
  // Properties of the whole
  // ---------------------------------------------------------------------

  /**
   * The recorded earliest and latest dates are the least and greatest date
   * of all located files, whatever the stride.
   */
  lemma CsvDateRange(history: Directory, f: SnapshotFile)
    requires f in Matching(history)
    ensures var all := SortByDate(Matching(history));
      && all != [] && all[0] in Matching(history) && all[|all| - 1] in Matching(history)
      && DateLe(all[0].date, f.date) && DateLe(f.date, all[|all| - 1].date)
  {
    SortedEnds(Matching(history), f);
  }

  /**
   * The date sequence is ascending, so the `sorted()` clean-up applies to it
   * changes nothing; it pairs with the file list index by index.
   */
  lemma DateSequenceAscending(history: Directory, timeStep: int)
    ensures AscendingDates(Dates(Located(history, timeStep)))
    ensures SortDates(Dates(Located(history, timeStep))) == Dates(Located(history, timeStep))
    ensures |Dates(Located(history, timeStep))| == |Located(history, timeStep)|
  {
    var all := SortByDate(Matching(history));
    SortByDateAscending(Matching(history));
    SampledAscending(all, timeStep);
    var ds := Dates(Located(history, timeStep));
    assert AscendingDates(ds);
    SortDatesOfAscending(ds);
  }

  /**
   * After `create_extrapolation_directory`, every key present in two files
   * of the result shows the same category and labels in its last row of
   * each.
   */
  lemma CreatedDirectoryConsistent(history: Directory, timeStep: int, k: ProjectKey, a: int, ja: int, b: int, jb: int)
    requires var files := Located(history, timeStep); var w := WorkingSetOf(files); var dates := Dates(files);
      && 0 <= a < |dates| && Processable(w, dates[a])
      && 0 <= b < |dates| && Processable(w, dates[b])
      && IsLast(Pass2(w, dates, Pass1(w, dates)).0[dates[a]].rows, ja, k)
      && IsLast(Pass2(w, dates, Pass1(w, dates)).0[dates[b]].rows, jb, k)
    ensures var files := Located(history, timeStep); var w := WorkingSetOf(files); var dates := Dates(files);
      var out := Pass2(w, dates, Pass1(w, dates)).0;
      && Get(out[dates[a]].rows[ja], "category") == Get(out[dates[b]].rows[jb], "category")
      && Get(out[dates[a]].rows[ja], "labels") == Get(out[dates[b]].rows[jb], "labels")
  {
    var files := Located(history, timeStep);
    ConsistentAcrossFiles(WorkingSetOf(files), Dates(files), k, a, ja, b, jb);
  }
}
