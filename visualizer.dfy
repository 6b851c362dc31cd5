/**
 * `TimeSeriesVisualizer`: locate the snapshots, aggregate each one by label
 * and assemble a dense date-by-group table.
 */
module Visualizer {
  import opened Wrappers
  import opened Calendar
  import opened Tables
  import opened Locator
  import opened Aggregation

  /** The `labels` argument of `process_data`: a list of labels or a map of groups. */
  datatype LabelSpec = LabelList(names: seq<string>) | LabelMap(groups: GroupMap)

  /** A list of labels becomes one group per label, each matching its own name. */
  function GroupsOf(spec: LabelSpec): (groups: GroupMap)
    ensures spec.LabelList? ==> groups.Keys == set l | l in spec.names
    ensures spec.LabelList? ==> forall g :: g in groups ==> groups[g] == None
    ensures spec.LabelMap? ==> groups == spec.groups
  {
    match spec
    case LabelList(names) => map l | l in names :: None
    case LabelMap(groups) => groups
  }

  /** The per-date results: one dictionary of group values per snapshot date. */
  type DateData = map<Date, map<string, real>>

  /** What one sampled file adds to the loop of `process_data`. */
  datatype FileOutcome = Skipped | Stored(date: Date, result: Result<map<string, real>, Failure>)

  /**
   * A file whose name gives no date or whose table is empty is skipped;
   * every other file is aggregated under its date.
   */
  function OutcomeOf(f: SnapshotFile, y: string, groups: GroupMap, how: string): FileOutcome {
    match ExtractDate(f.name)
    case None => Skipped
    case Some(d) => if IsEmpty(f.table) then Skipped else Stored(d, AggregateSpec(f.table, y, groups, how))
  }

  function Outcomes(files: seq<SnapshotFile>, y: string, groups: GroupMap, how: string): (r: seq<FileOutcome>)
    ensures |r| == |files| && forall i :: 0 <= i < |files| ==> r[i] == OutcomeOf(files[i], y, groups, how)
  {
    seq(|files|, i requires 0 <= i < |files| => OutcomeOf(files[i], y, groups, how))
  }

  /**
   * `data_by_date` after the loop: the stored results in file order, a later
   * file replacing an earlier one of the same date; the first failure ends
   * the loop.
   */
  function Collect(outs: seq<FileOutcome>): Result<DateData, Failure> {
    if outs == [] then Ok(map[])
    else
      match Collect(outs[..|outs| - 1])
      case Err(e) => Err(e)
      case Ok(m) =>
        match outs[|outs| - 1]
        case Skipped => Ok(m)
        case Stored(d, res) =>
          match res
          case Err(e) => Err(e)
          case Ok(v) => Ok(m[d := v])
  }

  function DataByDate(files: seq<SnapshotFile>, y: string, groups: GroupMap, how: string): Result<DateData, Failure> {
    Collect(Outcomes(files, y, groups, how))
  }

  /** A file stored under date `d`. */
  predicate StoredAt(o: FileOutcome, d: Date) {
    o.Stored? && o.date == d
  }

  /** The dates of the collected data are exactly the dates stored by some file. */
  lemma {:induction false} CollectKeys(outs: seq<FileOutcome>, d: Date)
    requires Collect(outs).Ok?
    ensures d in Collect(outs).value <==> exists i :: 0 <= i < |outs| && StoredAt(outs[i], d)
  {
    if outs != [] {
      var pre := outs[..|outs| - 1];
      CollectKeys(pre, d);
      if exists i :: 0 <= i < |pre| && StoredAt(pre[i], d) {
        var i :| 0 <= i < |pre| && StoredAt(pre[i], d);
        assert outs[i] == pre[i];
      }
      if exists i :: 0 <= i < |outs| && StoredAt(outs[i], d) {
        var i :| 0 <= i < |outs| && StoredAt(outs[i], d);
        if i < |pre| {
          assert outs[i] == pre[i];
        }
      }
    }
  }

  /** Each collected value is the result of the last file stored under that date. */
  lemma {:induction false} CollectValue(outs: seq<FileOutcome>, d: Date)
    requires Collect(outs).Ok? && d in Collect(outs).value
    ensures exists i :: 0 <= i < |outs| && StoredAt(outs[i], d) && outs[i].result == Ok(Collect(outs).value[d])
                        && forall j :: i < j < |outs| ==> !StoredAt(outs[j], d)
  {
    var pre := outs[..|outs| - 1];
    var o := outs[|outs| - 1];
    if o.Stored? && o.date == d {
      assert StoredAt(outs[|outs| - 1], d);
    } else {
      CollectValue(pre, d);
      var i :| 0 <= i < |pre| && StoredAt(pre[i], d) && pre[i].result == Ok(Collect(pre).value[d])
               && forall j :: i < j < |pre| ==> !StoredAt(pre[j], d);
      assert outs[i] == pre[i];
      forall j | i < j < |outs| ensures !StoredAt(outs[j], d) {
        if j < |pre| {
          assert outs[j] == pre[j];
        }
      }
    }
  }

  /** A file that takes part: its name gives a date and its table is not empty. */
  predicate UsedWithDate(f: SnapshotFile, d: Date) {
    ExtractDate(f.name) == Some(d) && !IsEmpty(f.table)
  }

  /**
   * The dates of `data_by_date` are exactly the dates of the files used, and
   * the value stored under each is the aggregate of the last used file with
   * that date (`data_by_date[date] = ...` overwrites earlier ones).
   */
  lemma DataByDateSpec(files: seq<SnapshotFile>, y: string, groups: GroupMap, how: string, d: Date)
    requires DataByDate(files, y, groups, how).Ok?
    ensures d in DataByDate(files, y, groups, how).value <==> exists i :: 0 <= i < |files| && UsedWithDate(files[i], d)
    ensures d in DataByDate(files, y, groups, how).value ==>
      exists i :: 0 <= i < |files| && UsedWithDate(files[i], d)
                  && AggregateSpec(files[i].table, y, groups, how) == Ok(DataByDate(files, y, groups, how).value[d])
                  && forall j :: i < j < |files| ==> !UsedWithDate(files[j], d)
  {
    var outs := Outcomes(files, y, groups, how);
    CollectKeys(outs, d);
    assert forall i :: 0 <= i < |files| ==> (StoredAt(outs[i], d) <==> UsedWithDate(files[i], d));
    if d in Collect(outs).value {
      CollectValue(outs, d);
    }
  }

  /**
   * Every stored dictionary is empty (the file lacked the `labels` or the
   * metric column) or has exactly the groups as keys.
   */
  lemma DataByDateValues(files: seq<SnapshotFile>, y: string, groups: GroupMap, how: string, d: Date)
    requires DataByDate(files, y, groups, how).Ok?
    requires d in DataByDate(files, y, groups, how).value
    ensures var v := DataByDate(files, y, groups, how).value[d]; v == map[] || v.Keys == groups.Keys
  {
    DataByDateSpec(files, y, groups, how, d);
  }

  /** `set().union(*...)`: every group that some date's result holds. */
  function AllLabels(data: DateData): set<string> {
    set d, l | d in data && l in data[d] :: l
  }

  /** The table's columns are the groups, or nothing when no used file had the needed columns. */
  lemma AllLabelsAreGroups(files: seq<SnapshotFile>, y: string, groups: GroupMap, how: string)
    requires DataByDate(files, y, groups, how).Ok?
    ensures var all := AllLabels(DataByDate(files, y, groups, how).value);
      all == {} || all == groups.Keys
  {
    var m := DataByDate(files, y, groups, how).value;
    if AllLabels(m) != {} {
      var l :| l in AllLabels(m);
      var d :| d in m && l in m[d];
      DataByDateValues(files, y, groups, how, d);
      assert m[d].Keys == groups.Keys;
      forall g | g in groups ensures g in AllLabels(m) {
        assert g in m[d];
      }
      forall k | k in AllLabels(m) ensures k in groups {
        var e :| e in m && k in m[e];
        DataByDateValues(files, y, groups, how, e);
      }
    }
  }

  predicate StrictlyAscending(ds: seq<Date>) {
    forall i, j :: 0 <= i < j < |ds| ==> DateLt(ds[i], ds[j])
  }

  predicate Distinct(xs: seq<string>) {
    forall i, j :: 0 <= i < j < |xs| ==> xs[i] != xs[j]
  }

  /** The output table: a row per date, a column per group, and the values. */
  datatype SeriesTable = SeriesTable(dates: seq<Date>, columns: seq<string>, cells: seq<seq<real>>)

  /** A date's value for a group, or 0.0 when its result lacks the group. */
  function ValueOrZero(values: map<string, real>, l: string): real {
    if l in values then values[l] else 0.0
  }

  /**
   * The table stands for the data: its rows are the data's dates in
   * ascending order, its columns the labels of all dates, and every cell is
   * filled, with 0.0 where a date's result lacks the group.
   */
  ghost predicate Tabulates(t: SeriesTable, data: DateData) {
    && StrictlyAscending(t.dates)
    && (forall d :: d in data <==> d in t.dates)
    && Distinct(t.columns)
    && (forall l :: l in AllLabels(data) <==> l in t.columns)
    && |t.cells| == |t.dates|
    && (forall i :: 0 <= i < |t.dates| ==> |t.cells[i]| == |t.columns|)
    && (forall i, j :: 0 <= i < |t.dates| && 0 <= j < |t.columns| ==>
          t.cells[i][j] == ValueOrZero(data[t.dates[i]], t.columns[j]))
  }

  /** Every non-empty finite set of dates has an earliest element. */
  lemma EarliestExists(s: set<Date>)
    requires s != {}
    ensures exists m :: m in s && forall x :: x in s ==> DateLe(m, x)
    decreases |s|
  {
    var x :| x in s;
    var rest := s - {x};
    if rest == {} {
      assert s == {x};
      assert DateLe(x, x);
    } else {
      EarliestExists(rest);
      var m :| m in rest && forall z :: z in rest ==> DateLe(m, z);
      if DateLe(m, x) {
        assert m in s && forall z :: z in s ==> DateLe(m, z);
      } else {
        forall z | z in s ensures DateLe(x, z) {
          if z != x {
            DateLeTrans(x, m, z);
          }
        }
      }
    }
  }

  /** `sorted(data_by_date.keys())`. */
  method SortedDates(keys: set<Date>) returns (ds: seq<Date>)
    ensures StrictlyAscending(ds)
    ensures forall d :: d in keys <==> d in ds
  {
    ds := [];
    var remaining := keys;
    while remaining != {}
      invariant StrictlyAscending(ds)
      invariant forall d :: d in keys <==> d in ds || d in remaining
      invariant forall i, d :: 0 <= i < |ds| && d in remaining ==> DateLt(ds[i], d)
      decreases |remaining|
    {
      EarliestExists(remaining);
      var m :| m in remaining && forall x :: x in remaining ==> DateLe(m, x);
      ds := ds + [m];
      remaining := remaining - {m};
    }
  }

  /** `list(all_labels)`, in whatever order the set yields. */
  method ListOfSet(s: set<string>) returns (xs: seq<string>)
    ensures Distinct(xs)
    ensures forall l :: l in s <==> l in xs
  {
    xs := [];
    var remaining := s;
    while remaining != {}
      invariant Distinct(xs)
      invariant forall l :: l in s <==> l in xs || l in remaining
      invariant forall l :: l in xs ==> l !in remaining
      decreases |remaining|
    {
      var l :| l in remaining;
      xs := xs + [l];
      remaining := remaining - {l};
    }
  }

  /** The table `process_data` fills cell by cell. */
  method BuildSeriesTable(data: DateData) returns (t: SeriesTable)
    ensures Tabulates(t, data)
  {
    var dates := SortedDates(data.Keys);
    var columns := ListOfSet(AllLabels(data));
    var cells: seq<seq<real>> := [];
    var i := 0;
    while i < |dates|
      invariant 0 <= i <= |dates|
      invariant |cells| == i
      invariant forall a :: 0 <= a < i ==> |cells[a]| == |columns|
      invariant forall a, b :: 0 <= a < i && 0 <= b < |columns| ==> cells[a][b] == ValueOrZero(data[dates[a]], columns[b])
    {
      var row: seq<real> := [];
      var j := 0;
      while j < |columns|
        invariant 0 <= j <= |columns|
        invariant |row| == j
        invariant forall b :: 0 <= b < j ==> row[b] == ValueOrZero(data[dates[i]], columns[b])
      {
        var values := data[dates[i]];
        if columns[j] in values {
          row := row + [values[columns[j]]];
        } else {
          row := row + [0.0];
        }
        j := j + 1;
      }
      cells := cells + [row];
      i := i + 1;
    }
    t := SeriesTable(dates, columns, cells);
  }

  class TimeSeriesVisualizer {
    /** The history directory, as the listing of its snapshot files. */
    const history: Directory
    var csvFiles: seq<SnapshotFile>
    var timeseriesData: Option<SeriesTable>
    var allLabels: set<string>

    constructor(history: Directory)
      ensures this.history == history
      ensures csvFiles == [] && timeseriesData == None && allLabels == {}
    {
      this.history := history;
      csvFiles := [];
      timeseriesData := None;
      allLabels := {};
    }

    /** `_find_csv_files`: the located snapshots in date order, sampled with stride `timeStep`. */
    method FindCsvFiles(timeStep: int) returns (files: seq<SnapshotFile>)
      ensures files == Located(history, timeStep)
    {
      var all;
      all, files := Locate(history, timeStep);
    }

    /**
     * `process_data`: raises without labels or without files; otherwise
     * aggregates every used file and stores the dense table of the results.
     */
    method ProcessData(y: string, labels: Option<LabelSpec>, how: string, timeStep: int)
      returns (r: Result<SeriesTable, Failure>)
      modifies this
      ensures labels.None? ==> r == Err(LabelsNotProvided) && unchanged(this)
      ensures labels.Some? ==> csvFiles == Located(history, timeStep)
      ensures labels.Some? && csvFiles == [] ==>
        r == Err(NoCsvFiles) && timeseriesData == old(timeseriesData) && allLabels == old(allLabels)
      ensures labels.Some? && csvFiles != [] ==>
        match DataByDate(csvFiles, y, GroupsOf(labels.value), how)
        case Err(e) => r == Err(e) && timeseriesData == old(timeseriesData) && allLabels == old(allLabels)
        case Ok(data) =>
          && r.Ok? && Tabulates(r.value, data)
          && timeseriesData == Some(r.value) && allLabels == AllLabels(data)
    {
      if labels.None? {
        return Err(LabelsNotProvided);
      }
      var groups := GroupsOf(labels.value);
      csvFiles := FindCsvFiles(timeStep);
      if csvFiles == [] {
        return Err(NoCsvFiles);
      }
      var result := AggregateFiles(csvFiles, y, groups, how);
      if result.Err? {
        return Err(result.error);
      }
      var data := result.value;
      var table := BuildSeriesTable(data);
      timeseriesData := Some(table);
      allLabels := AllLabels(data);
      r := Ok(table);
    }
  }

  /** The loop of `process_data` over the sampled files. */
  method AggregateFiles(files: seq<SnapshotFile>, y: string, groups: GroupMap, how: string)
    returns (r: Result<DateData, Failure>)
    ensures r == DataByDate(files, y, groups, how)
  {
    ghost var outs := Outcomes(files, y, groups, how);
    var data: DateData := map[];
    var i := 0;
    while i < |files|
      invariant 0 <= i <= |files|
      invariant Collect(outs[..i]) == Ok(data)
    {
      var o := AggregateFile(files[i], y, groups, how);
      CollectStep(outs, i);
      match o {
        case Skipped =>
        case Stored(d, values) =>
          if values.Err? {
            ErrStays(outs, i + 1);
            assert outs[..|outs|] == outs;
            return Err(values.error);
          }
          data := data[d := values.value];
      }
      i := i + 1;
    }
    assert outs[..|outs|] == outs;
    r := Ok(data);
  }

  /** One pass of that loop: the date of the file and, unless it is skipped, its aggregate. */
  method AggregateFile(f: SnapshotFile, y: string, groups: GroupMap, how: string) returns (o: FileOutcome)
    ensures o == OutcomeOf(f, y, groups, how)
  {
    var date := ExtractDate(f.name);
    if date.Some? && !IsEmpty(f.table) {
      var values := AggregateByLabel(f.table, y, groups, how);
      o := Stored(date.value, values);
    } else {
      o := Skipped;
    }
  }

  /** The loop takes one more outcome into account. */
  lemma CollectStep(outs: seq<FileOutcome>, i: nat)
    requires i < |outs|
    ensures Collect(outs[..i + 1]) ==
      match Collect(outs[..i])
      case Err(e) => Err(e)
      case Ok(m) =>
        match outs[i]
        case Skipped => Ok(m)
        case Stored(d, res) =>
          match res
          case Err(e) => Err(e)
          case Ok(v) => Ok(m[d := v])
  {
    assert outs[..i + 1][..i] == outs[..i];
  }

  /** Once a prefix of the outcomes fails, the whole loop fails with that error. */
  lemma {:induction false} ErrStays(outs: seq<FileOutcome>, n: nat)
    requires n <= |outs|
    requires Collect(outs[..n]).Err?
    ensures Collect(outs) == Collect(outs[..n])
    decreases |outs| - n
  {
    if n < |outs| {
      assert outs[..n + 1][..n] == outs[..n];
      ErrStays(outs, n + 1);
    } else {
      assert outs[..n] == outs;
    }
  }

  /** Every file `_find_csv_files` returns is a directory entry whose name carries its date. */
  lemma LocatedFilesCarryDates(history: Directory, timeStep: int, f: SnapshotFile)
    requires f in Located(history, timeStep)
    ensures ExtractDate(f.name) == Some(f.date)
  {
    var all := SortByDate(Matching(history));
    SampledFromAll(all, timeStep, f);
    SortedMembers(Matching(history), f);
  }
}
