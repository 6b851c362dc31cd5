/**
 * The two passes of `TimeSeriesExtrapolator.clean_up_original_data` over the
 * working set of copied snapshots. Pass 1 walks the dates in order and
 * records, for every project key, the date, category and labels of its first
 * appearance. Pass 2 walks them again and, in every file, overwrites the
 * category and labels of the row indexed for a known key with the recorded
 * ones, rewriting the file only when some row changed.
 */
module Reconciliation {
  import opened Wrappers
  import opened Calendar
  import opened Tables
  import opened Locator

  /** `(name, homepage)`, with the cells as read from the file. */
  datatype ProjectKey = ProjectKey(name: Cell, homepage: Cell)

  /** `(first_date, category, labels)` of a project's first appearance. */
  datatype FirstSeen = FirstSeen(date: Date, category: Cell, labels: Cell)

  type FirstMap = map<ProjectKey, FirstSeen>

  /**
   * The extrapolation directory as clean-up sees it: the table of the file
   * named `YYYY-MM-DD_projects.csv` for each date that has one.
   */
  type WorkingSet = map<Date, Table>

  // ---------------------------------------------------------------------
  // Dates in order
  // ---------------------------------------------------------------------

  function InsertDate(x: Date, s: seq<Date>): (r: seq<Date>)
    ensures multiset(r) == multiset(s) + multiset{x}
  {
    if s == [] then [x]
    else if DateLe(x, s[0]) then [x] + s
    else
      assert s == [s[0]] + s[1..];
      [s[0]] + InsertDate(x, s[1..])
  }

  /** `sorted()` of a sequence of dates. */
  function SortDates(s: seq<Date>): (r: seq<Date>)
    ensures multiset(r) == multiset(s)
  {
    if s == [] then []
    else
      assert s == [s[0]] + s[1..];
      InsertDate(s[0], SortDates(s[1..]))
  }

  /** A date no later than the first of an ascending sequence can go in front of it. */
  lemma PrependAscending(x: Date, s: seq<Date>)
    requires AscendingDates(s) && (s == [] || DateLe(x, s[0]))
    ensures AscendingDates([x] + s)
  {
    var r := [x] + s;
    forall i, j | 0 <= i < j < |r| ensures DateLe(r[i], r[j]) {
      if i == 0 && j > 1 {
        DateLeTrans(x, s[0], s[j - 1]);
      }
    }
  }

  lemma AscendingTail(s: seq<Date>)
    requires AscendingDates(s) && s != []
    ensures AscendingDates(s[1..])
    ensures forall y :: y in s[1..] ==> DateLe(s[0], y)
  {
    forall i, j | 0 <= i < j < |s[1..]| ensures DateLe(s[1..][i], s[1..][j]) {
      assert s[1..][i] == s[i + 1] && s[1..][j] == s[j + 1];
    }
    forall y | y in s[1..] ensures DateLe(s[0], y) {
      var m :| 0 <= m < |s[1..]| && s[1..][m] == y;
      assert s[m + 1] == y;
    }
  }

  lemma {:induction false} InsertDateAscending(x: Date, s: seq<Date>)
    requires AscendingDates(s)
    ensures AscendingDates(InsertDate(x, s))
  {
    if s == [] {
    } else if DateLe(x, s[0]) {
      PrependAscending(x, s);
    } else {
      DateLeTotal(x, s[0]);
      AscendingTail(s);
      var t := InsertDate(x, s[1..]);
      InsertDateAscending(x, s[1..]);
      assert t[0] in multiset(s[1..]) + multiset{x};
      PrependAscending(s[0], t);
    }
  }

  /** Sorting gives an ascending permutation of the dates. */
  lemma {:induction false} SortDatesAscending(s: seq<Date>)
    ensures AscendingDates(SortDates(s))
  {
    if s != [] {
      SortDatesAscending(s[1..]);
      InsertDateAscending(s[0], SortDates(s[1..]));
    }
  }

  /** Dates already in order are left as they are. */
  lemma {:induction false} SortDatesOfAscending(s: seq<Date>)
    requires AscendingDates(s)
    ensures SortDates(s) == s
  {
    if s != [] {
      AscendingTail(s);
      SortDatesOfAscending(s[1..]);
      assert s == [s[0]] + s[1..];
    }
  }

  // ---------------------------------------------------------------------
  // Files and rows of the working set
  // ---------------------------------------------------------------------

  /** The columns clean-up requires of a file. */
  predicate HasColumns(t: Table) {
    "name" in t.columns && "homepage" in t.columns && "category" in t.columns && "labels" in t.columns
  }

  /** The file of date `d` exists and has the required columns. */
  predicate Processable(w: WorkingSet, d: Date) {
    d in w && HasColumns(w[d])
  }

  function RowsOf(w: WorkingSet, d: Date): seq<Row>
    requires Processable(w, d)
  {
    w[d].rows
  }

  /** The key of a row; none when its name is NaN or empty. */
  function RowKey(r: Row): Option<ProjectKey> {
    var name := Get(r, "name");
    if name == Missing || name == Text("") then None
    else Some(ProjectKey(name, Get(r, "homepage")))
  }

  predicate HasKey(rows: seq<Row>, k: ProjectKey) {
    exists j :: 0 <= j < |rows| && RowKey(rows[j]) == Some(k)
  }

  /** Row `j` is the first row of `rows` with key `k`. */
  predicate FirstRowOf(rows: seq<Row>, k: ProjectKey, j: int) {
    0 <= j < |rows| && RowKey(rows[j]) == Some(k)
    && forall i :: 0 <= i < j ==> RowKey(rows[i]) != Some(k)
  }

  /** Row `j` is the last row of `rows` with key `k`. */
  predicate IsLast(rows: seq<Row>, j: int, k: ProjectKey) {
    0 <= j < |rows| && RowKey(rows[j]) == Some(k)
    && forall i :: j < i < |rows| ==> RowKey(rows[i]) != Some(k)
  }

  predicate Contains(w: WorkingSet, d: Date, k: ProjectKey) {
    Processable(w, d) && HasKey(RowsOf(w, d), k)
  }

  lemma FirstRowExists(rows: seq<Row>, k: ProjectKey, j: int) returns (j0: int)
    requires 0 <= j < |rows| && RowKey(rows[j]) == Some(k)
    ensures j0 <= j && FirstRowOf(rows, k, j0)
    decreases j
  {
    if exists i :: 0 <= i < j && RowKey(rows[i]) == Some(k) {
      var i :| 0 <= i < j && RowKey(rows[i]) == Some(k);
      j0 := FirstRowExists(rows, k, i);
    } else {
      j0 := j;
    }
  }

  lemma FirstFileExists(w: WorkingSet, dates: seq<Date>, k: ProjectKey, i: int) returns (i0: int)
    requires 0 <= i < |dates| && Contains(w, dates[i], k)
    ensures 0 <= i0 <= i && Contains(w, dates[i0], k)
    ensures forall i' :: 0 <= i' < i0 ==> !Contains(w, dates[i'], k)
    decreases i
  {
    if exists i' :: 0 <= i' < i && Contains(w, dates[i'], k) {
      var i' :| 0 <= i' < i && Contains(w, dates[i'], k);
      i0 := FirstFileExists(w, dates, k, i');
    } else {
      i0 := i;
    }
  }

  // ---------------------------------------------------------------------
  // Pass 1: first appearances
  // ---------------------------------------------------------------------

  function Seen(d: Date, r: Row): FirstSeen {
    FirstSeen(d, Get(r, "category"), Get(r, "labels"))
  }

  /** The rows of one file added to the first appearances found so far; a key already known keeps its entry. */
  function FirstInFile(first: FirstMap, d: Date, rows: seq<Row>): FirstMap {
    if rows == [] then first
    else
      var f := FirstInFile(first, d, rows[..|rows| - 1]);
      var r := rows[|rows| - 1];
      match RowKey(r)
      case None => f
      case Some(k) => if k in f then f else f[k := Seen(d, r)]
  }

  /** Pass 1 over the dates in order; missing files and files without the required columns are skipped. */
  function Pass1(w: WorkingSet, dates: seq<Date>): FirstMap {
    if dates == [] then map[]
    else
      var f := Pass1(w, dates[..|dates| - 1]);
      var d := dates[|dates| - 1];
      if Processable(w, d) then FirstInFile(f, d, RowsOf(w, d)) else f
  }

  /** A file adds exactly its keys, and never changes an entry already there. */
  lemma {:induction false} FirstInFileKeys(first: FirstMap, d: Date, rows: seq<Row>, k: ProjectKey)
    ensures k in FirstInFile(first, d, rows) <==> k in first || HasKey(rows, k)
    ensures k in first ==> FirstInFile(first, d, rows)[k] == first[k]
  {
    if rows != [] {
      var pre := rows[..|rows| - 1];
      FirstInFileKeys(first, d, pre, k);
      if HasKey(pre, k) {
        var j :| 0 <= j < |pre| && RowKey(pre[j]) == Some(k);
        assert rows[j] == pre[j];
      }
      if HasKey(rows, k) && !HasKey(pre, k) {
        var j :| 0 <= j < |rows| && RowKey(rows[j]) == Some(k);
        assert j == |pre|;
      }
    }
  }

  /** A new key takes the category and labels of its first row in the file. */
  lemma {:induction false} FirstInFileAt(first: FirstMap, d: Date, rows: seq<Row>, k: ProjectKey, j: int)
    requires k !in first && FirstRowOf(rows, k, j)
    ensures k in FirstInFile(first, d, rows)
    ensures FirstInFile(first, d, rows)[k] == Seen(d, rows[j])
  {
    var pre := rows[..|rows| - 1];
    var f := FirstInFile(first, d, pre);
    if j < |pre| {
      assert FirstRowOf(pre, k, j) by {
        forall i | 0 <= i < j ensures RowKey(pre[i]) != Some(k) {
          assert pre[i] == rows[i];
        }
      }
      FirstInFileAt(first, d, pre, k, j);
    } else {
      assert !HasKey(pre, k) by {
        forall i | 0 <= i < |pre| ensures RowKey(pre[i]) != Some(k) {
          assert pre[i] == rows[i];
        }
      }
      FirstInFileKeys(first, d, pre, k);
    }
  }

  /** The keys of pass 1 are exactly the keys of the processable files. */
  lemma {:induction false} Pass1Keys(w: WorkingSet, dates: seq<Date>, k: ProjectKey)
    ensures k in Pass1(w, dates) <==> exists i :: 0 <= i < |dates| && Contains(w, dates[i], k)
  {
    if dates != [] {
      var pre := dates[..|dates| - 1];
      var d := dates[|dates| - 1];
      Pass1Keys(w, pre, k);
      if Processable(w, d) {
        FirstInFileKeys(Pass1(w, pre), d, RowsOf(w, d), k);
      }
      if exists i :: 0 <= i < |pre| && Contains(w, pre[i], k) {
        var i :| 0 <= i < |pre| && Contains(w, pre[i], k);
        assert dates[i] == pre[i];
      }
      if exists i :: 0 <= i < |dates| && Contains(w, dates[i], k) {
        var i :| 0 <= i < |dates| && Contains(w, dates[i], k);
        if i < |pre| {
          assert pre[i] == dates[i];
        }
      }
    }
  }

  /**
   * The entry of a key comes from the first date whose file contains it,
   * with the category and labels of the first row with that key there.
   */
  lemma {:induction false} Pass1At(w: WorkingSet, dates: seq<Date>, k: ProjectKey, i: int, j: int)
    requires 0 <= i < |dates| && Contains(w, dates[i], k)
    requires forall i' :: 0 <= i' < i ==> !Contains(w, dates[i'], k)
    requires FirstRowOf(RowsOf(w, dates[i]), k, j)
    ensures k in Pass1(w, dates)
    ensures Pass1(w, dates)[k] == Seen(dates[i], RowsOf(w, dates[i])[j])
  {
    var pre := dates[..|dates| - 1];
    var d := dates[|dates| - 1];
    var f := Pass1(w, pre);
    if i < |pre| {
      assert pre[i] == dates[i];
      assert forall i' :: 0 <= i' < i ==> pre[i'] == dates[i'];
      Pass1At(w, pre, k, i, j);
      if Processable(w, d) {
        FirstInFileKeys(f, d, RowsOf(w, d), k);
      }
    } else {
      assert !(exists i' :: 0 <= i' < |pre| && Contains(w, pre[i'], k)) by {
        forall i' | 0 <= i' < |pre| ensures !Contains(w, pre[i'], k) {
          assert pre[i'] == dates[i'];
        }
      }
      Pass1Keys(w, pre, k);
      FirstInFileAt(f, d, RowsOf(w, d), k, j);
    }
  }

  /**
   * Over dates in ascending order, a key's first appearance is no later than
   * any date whose file contains it, and is itself a date whose file does.
   */
  lemma FirstAppearanceIsEarliest(w: WorkingSet, dates: seq<Date>, k: ProjectKey, i: int)
    requires AscendingDates(dates)
    requires 0 <= i < |dates| && Contains(w, dates[i], k)
    ensures k in Pass1(w, dates)
    ensures DateLe(Pass1(w, dates)[k].date, dates[i])
    ensures Contains(w, Pass1(w, dates)[k].date, k)
  {
    var i0 := FirstFileExists(w, dates, k, i);
    var rows := RowsOf(w, dates[i0]);
    var j :| 0 <= j < |rows| && RowKey(rows[j]) == Some(k);
    var j0 := FirstRowExists(rows, k, j);
    Pass1At(w, dates, k, i0, j0);
    if i0 == i {
      assert DateLe(dates[i], dates[i]);
    }
  }

  // ---------------------------------------------------------------------
  // Pass 2: overwriting with the first appearance
  // ---------------------------------------------------------------------

  /** `existing_projects`: each key maps to the index of its row, the last one winning. */
  function ExistingIndex(rows: seq<Row>): map<ProjectKey, int> {
    if rows == [] then map[]
    else
      var m := ExistingIndex(rows[..|rows| - 1]);
      match RowKey(rows[|rows| - 1])
      case None => m
      case Some(k) => m[k := |rows| - 1]
  }

  /** The index holds exactly the keys of the file, each at its last row. */
  lemma {:induction false} ExistingIndexSpec(rows: seq<Row>, k: ProjectKey)
    ensures k in ExistingIndex(rows) <==> HasKey(rows, k)
    ensures k in ExistingIndex(rows) ==> IsLast(rows, ExistingIndex(rows)[k], k)
  {
    if rows != [] {
      var pre := rows[..|rows| - 1];
      ExistingIndexSpec(pre, k);
      if HasKey(pre, k) {
        var j :| 0 <= j < |pre| && RowKey(pre[j]) == Some(k);
        assert rows[j] == pre[j];
      }
      if HasKey(rows, k) && !HasKey(pre, k) {
        var j :| 0 <= j < |rows| && RowKey(rows[j]) == Some(k);
        assert j == |pre|;
      }
      if k in ExistingIndex(pre) && RowKey(rows[|rows| - 1]) != Some(k) {
        var j := ExistingIndex(pre)[k];
        assert forall i :: j < i < |pre| ==> pre[i] == rows[i];
      }
    }
  }

  /** `df.at[idx, 'category'] = category; df.at[idx, 'labels'] = labels`. */
  function Overwrite(r: Row, f: FirstSeen): Row {
    r["category" := f.category]["labels" := f.labels]
  }

  predicate Differs(r: Row, f: FirstSeen) {
    Get(r, "category") != f.category || Get(r, "labels") != f.labels
  }

  /**
   * Row `i` after the keys in `keys` have been handled: the last row of a
   * handled known key takes its first-appearance values when they differ.
   */
  function RewrittenRow(rows: seq<Row>, first: FirstMap, keys: set<ProjectKey>, i: int): Row
    requires 0 <= i < |rows|
  {
    match RowKey(rows[i])
    case None => rows[i]
    case Some(k) =>
      if k in keys && k in first && IsLast(rows, i, k) && Differs(rows[i], first[k])
      then Overwrite(rows[i], first[k])
      else rows[i]
  }

  function Rewritten(rows: seq<Row>, first: FirstMap, keys: set<ProjectKey>): (r: seq<Row>)
    ensures |r| == |rows|
    ensures forall i :: 0 <= i < |rows| ==> r[i] == RewrittenRow(rows, first, keys, i)
  {
    seq(|rows|, i requires 0 <= i < |rows| => RewrittenRow(rows, first, keys, i))
  }

  /** A file's rows after pass 2. */
  function Reconciled(rows: seq<Row>, first: FirstMap): seq<Row> {
    Rewritten(rows, first, first.Keys)
  }

  /** A processable file whose reconciled rows differ from its rows. */
  predicate Changes(w: WorkingSet, d: Date, first: FirstMap) {
    Processable(w, d) && Reconciled(RowsOf(w, d), first) != RowsOf(w, d)
  }

  /**
   * Pass 2 over the dates in order, with the number of files written back.
   * It never adds or removes a file, nor changes a file's columns.
   */
  function Pass2(w: WorkingSet, dates: seq<Date>, first: FirstMap): (r: (WorkingSet, nat))
    ensures r.0.Keys == w.Keys
    ensures forall d :: d in w ==> r.0[d].columns == w[d].columns
  {
    if dates == [] then (w, 0)
    else
      var (w1, count) := Pass2(w, dates[..|dates| - 1], first);
      var d := dates[|dates| - 1];
      if Changes(w1, d, first)
      then (w1[d := Table(w1[d].columns, Reconciled(RowsOf(w1, d), first))], count + 1)
      else (w1, count)
  }

  lemma OverwriteKeepsKey(r: Row, f: FirstSeen)
    ensures RowKey(Overwrite(r, f)) == RowKey(r)
    ensures !Differs(Overwrite(r, f), f)
    ensures forall c :: c != "category" && c != "labels" ==> Get(Overwrite(r, f), c) == Get(r, c)
  {
    assert "homepage"[0] != "category"[0];
    assert Get(Overwrite(r, f), "name") == Get(r, "name");
    assert Get(Overwrite(r, f), "homepage") == Get(r, "homepage");
  }

  /**
   * Pass 2 in one file: the last row of every known key carries the key's
   * first-appearance category and labels; every other column and every
   * other row is as it was.
   */
  lemma ReconciledRows(rows: seq<Row>, first: FirstMap, i: int)
    requires 0 <= i < |rows|
    ensures |Reconciled(rows, first)| == |rows|
    ensures RowKey(Reconciled(rows, first)[i]) == RowKey(rows[i])
    ensures forall c :: c != "category" && c != "labels" ==> Get(Reconciled(rows, first)[i], c) == Get(rows[i], c)
    ensures forall k :: IsLast(rows, i, k) && k in first ==>
      Get(Reconciled(rows, first)[i], "category") == first[k].category
      && Get(Reconciled(rows, first)[i], "labels") == first[k].labels
    ensures (forall k :: IsLast(rows, i, k) ==> k !in first) ==> Reconciled(rows, first)[i] == rows[i]
  {
    match RowKey(rows[i])
    case None =>
    case Some(k) =>
      OverwriteKeepsKey(rows[i], if k in first then first[k] else Seen(Date(1, 1, 1), rows[i]));
  }

  /** Being the last row of a key is the same before and after pass 2. */
  lemma ReconciledKeepsLast(rows: seq<Row>, first: FirstMap, i: int, k: ProjectKey)
    requires 0 <= i < |rows|
    ensures IsLast(Reconciled(rows, first), i, k) <==> IsLast(rows, i, k)
  {
    var r := Reconciled(rows, first);
    forall j | 0 <= j < |rows| ensures RowKey(r[j]) == RowKey(rows[j]) {
      ReconciledRows(rows, first, j);
    }
  }

  /** Running pass 2 on a file twice changes nothing the second time. */
  lemma ReconciledIdempotent(rows: seq<Row>, first: FirstMap)
    ensures Reconciled(Reconciled(rows, first), first) == Reconciled(rows, first)
  {
    var r := Reconciled(rows, first);
    forall i | 0 <= i < |rows| ensures Reconciled(r, first)[i] == r[i] {
      ReconciledRows(rows, first, i);
      match RowKey(rows[i])
      case None =>
      case Some(k) =>
        ReconciledKeepsLast(rows, first, i, k);
        if k in first && IsLast(rows, i, k) && Differs(rows[i], first[k]) {
          OverwriteKeepsKey(rows[i], first[k]);
        }
    }
  }

  /** A file whose date is not in the sequence is left alone. */
  lemma {:induction false} Pass2Untouched(w: WorkingSet, dates: seq<Date>, first: FirstMap, d: Date)
    requires d in w && d !in dates
    ensures Pass2(w, dates, first).0[d] == w[d]
  {
    if dates != [] {
      var pre := dates[..|dates| - 1];
      assert dates == pre + [dates[|dates| - 1]];
      Pass2Untouched(w, pre, first, d);
    }
  }

  /** Every processable file of the sequence ends up reconciled, whatever repeats the sequence holds. */
  lemma {:induction false} Pass2Reconciles(w: WorkingSet, dates: seq<Date>, first: FirstMap, i: int)
    requires 0 <= i < |dates| && Processable(w, dates[i])
    ensures Pass2(w, dates, first).0[dates[i]] == Table(w[dates[i]].columns, Reconciled(RowsOf(w, dates[i]), first))
  {
    var pre := dates[..|dates| - 1];
    var d := dates[|dates| - 1];
    assert dates == pre + [d];
    if dates[i] in pre {
      var i' :| 0 <= i' < |pre| && pre[i'] == dates[i];
      Pass2Reconciles(w, pre, first, i');
      if d == dates[i] {
        ReconciledIdempotent(RowsOf(w, d), first);
      }
    } else {
      Pass2Untouched(w, pre, first, dates[i]);
    }
  }

  /** The files pass 2 changes. */
  function ChangedDates(w: WorkingSet, dates: seq<Date>, first: FirstMap): set<Date> {
    set d | d in dates && Changes(w, d, first)
  }

  /** The last date adds one to the count exactly when it is new and its file changes. */
  lemma Pass2CountStep(w: WorkingSet, dates: seq<Date>, first: FirstMap)
    requires dates != []
    ensures var pre := dates[..|dates| - 1]; var d := dates[|dates| - 1];
      Pass2(w, dates, first).1 == Pass2(w, pre, first).1 + if d !in pre && Changes(w, d, first) then 1 else 0
  {
    var pre := dates[..|dates| - 1];
    var d := dates[|dates| - 1];
    var w1 := Pass2(w, pre, first).0;
    if d in pre {
      var i' :| 0 <= i' < |pre| && pre[i'] == d;
      if Processable(w, d) {
        Pass2Reconciles(w, pre, first, i');
        ReconciledIdempotent(RowsOf(w, d), first);
      }
      assert !Changes(w1, d, first);
    } else if d in w {
      Pass2Untouched(w, pre, first, d);
      assert w1[d] == w[d];
    }
  }

  /** The last date adds itself to the changed files exactly when it is new and its file changes. */
  lemma ChangedDatesStep(w: WorkingSet, dates: seq<Date>, first: FirstMap)
    requires dates != []
    ensures var pre := dates[..|dates| - 1]; var d := dates[|dates| - 1];
      |ChangedDates(w, dates, first)| == |ChangedDates(w, pre, first)| + if d !in pre && Changes(w, d, first) then 1 else 0
  {
    var pre := dates[..|dates| - 1];
    var d := dates[|dates| - 1];
    assert dates == pre + [d];
    var before := ChangedDates(w, pre, first);
    var after := ChangedDates(w, dates, first);
    if d !in pre && Changes(w, d, first) {
      assert d !in before;
      assert after == before + {d};
    } else {
      assert after == before;
    }
  }

  /** `modified_files_count` counts each changed file once. */
  lemma {:induction false} Pass2Count(w: WorkingSet, dates: seq<Date>, first: FirstMap)
    ensures Pass2(w, dates, first).1 == |ChangedDates(w, dates, first)|
  {
    if dates != [] {
      Pass2Count(w, dates[..|dates| - 1], first);
      Pass2CountStep(w, dates, first);
      ChangedDatesStep(w, dates, first);
    }
  }

  /**
   * After clean-up, the last row of a key in any processable file carries the
   * category and labels of the key's first appearance.
   */
  lemma CleanedLastOccurrence(w: WorkingSet, dates: seq<Date>, a: int, k: ProjectKey, j: int)
    requires 0 <= a < |dates| && Processable(w, dates[a])
    requires IsLast(Pass2(w, dates, Pass1(w, dates)).0[dates[a]].rows, j, k)
    ensures k in Pass1(w, dates)
    ensures var row := Pass2(w, dates, Pass1(w, dates)).0[dates[a]].rows[j];
      Get(row, "category") == Pass1(w, dates)[k].category && Get(row, "labels") == Pass1(w, dates)[k].labels
  {
    var first := Pass1(w, dates);
    var rows := RowsOf(w, dates[a]);
    Pass2Reconciles(w, dates, first, a);
    ReconciledKeepsLast(rows, first, j, k);
    assert Contains(w, dates[a], k);
    Pass1Keys(w, dates, k);
    ReconciledRows(rows, first, j);
  }

  /**
   * The consistency the clean-up promises: a key's last rows in two files show
   * the same category and the same labels.
   */
  lemma ConsistentAcrossFiles(w: WorkingSet, dates: seq<Date>, k: ProjectKey, a: int, ja: int, b: int, jb: int)
    requires 0 <= a < |dates| && Processable(w, dates[a])
    requires 0 <= b < |dates| && Processable(w, dates[b])
    requires IsLast(Pass2(w, dates, Pass1(w, dates)).0[dates[a]].rows, ja, k)
    requires IsLast(Pass2(w, dates, Pass1(w, dates)).0[dates[b]].rows, jb, k)
    ensures var w' := Pass2(w, dates, Pass1(w, dates)).0;
      && Get(w'[dates[a]].rows[ja], "category") == Get(w'[dates[b]].rows[jb], "category")
      && Get(w'[dates[a]].rows[ja], "labels") == Get(w'[dates[b]].rows[jb], "labels")
  {
    CleanedLastOccurrence(w, dates, a, k, ja);
    CleanedLastOccurrence(w, dates, b, k, jb);
  }

  /** No key occurs in two rows of a file: one record per project key. */
  predicate UniqueKeys(rows: seq<Row>) {
    forall i, j :: 0 <= i < j < |rows| && RowKey(rows[i]).Some? ==> RowKey(rows[i]) != RowKey(rows[j])
  }

  /**
   * When no key repeats within a file, every row of that file with key `k`
   * carries the category and labels of the key's first appearance after
   * clean-up, not just the last one.
   */
  lemma CleanedUniqueKeys(w: WorkingSet, dates: seq<Date>, a: int, k: ProjectKey, j: int)
    requires 0 <= a < |dates| && Processable(w, dates[a])
    requires UniqueKeys(RowsOf(w, dates[a]))
    requires 0 <= j < |Pass2(w, dates, Pass1(w, dates)).0[dates[a]].rows|
    requires RowKey(Pass2(w, dates, Pass1(w, dates)).0[dates[a]].rows[j]) == Some(k)
    ensures k in Pass1(w, dates)
    ensures var row := Pass2(w, dates, Pass1(w, dates)).0[dates[a]].rows[j];
      Get(row, "category") == Pass1(w, dates)[k].category && Get(row, "labels") == Pass1(w, dates)[k].labels
  {
    var first := Pass1(w, dates);
    var rows := RowsOf(w, dates[a]);
    Pass2Reconciles(w, dates, first, a);
    ReconciledRows(rows, first, j);
    assert IsLast(rows, j, k);
    ReconciledKeepsLast(rows, first, j, k);
    CleanedLastOccurrence(w, dates, a, k, j);
  }

  /**
   * The consistency the clean-up promises, for files with one row per key:
   * any two rows of a key in two files show the same category and labels.
   */
  lemma ConsistentUniqueKeys(w: WorkingSet, dates: seq<Date>, k: ProjectKey, a: int, ja: int, b: int, jb: int)
    requires 0 <= a < |dates| && Processable(w, dates[a]) && UniqueKeys(RowsOf(w, dates[a]))
    requires 0 <= b < |dates| && Processable(w, dates[b]) && UniqueKeys(RowsOf(w, dates[b]))
    requires 0 <= ja < |Pass2(w, dates, Pass1(w, dates)).0[dates[a]].rows|
    requires 0 <= jb < |Pass2(w, dates, Pass1(w, dates)).0[dates[b]].rows|
    requires RowKey(Pass2(w, dates, Pass1(w, dates)).0[dates[a]].rows[ja]) == Some(k)
    requires RowKey(Pass2(w, dates, Pass1(w, dates)).0[dates[b]].rows[jb]) == Some(k)
    ensures var w' := Pass2(w, dates, Pass1(w, dates)).0;
      && Get(w'[dates[a]].rows[ja], "category") == Get(w'[dates[b]].rows[jb], "category")
      && Get(w'[dates[a]].rows[ja], "labels") == Get(w'[dates[b]].rows[jb], "labels")
  {
    CleanedUniqueKeys(w, dates, a, k, ja);
    CleanedUniqueKeys(w, dates, b, k, jb);
  }

  /**
   * Only the row the index points at is rewritten: an earlier row with the
   * same key keeps its category, so two rows of one key can still disagree.
   */
  lemma DuplicateRowKeepsCategory(r1: Row, r2: Row, first: FirstMap, k: ProjectKey)
    requires RowKey(r1) == Some(k) && RowKey(r2) == Some(k) && k in first
    requires Get(r1, "category") != first[k].category
    ensures Reconciled([r1, r2], first)[0] == r1
    ensures Get(Reconciled([r1, r2], first)[1], "category") == first[k].category
    ensures Get(Reconciled([r1, r2], first)[0], "category") != Get(Reconciled([r1, r2], first)[1], "category")
  {
    var rows := [r1, r2];
    assert !IsLast(rows, 0, k);
    assert IsLast(rows, 1, k);
    ReconciledRows(rows, first, 1);
  }

  // ---------------------------------------------------------------------
  // The loops of clean-up
  // ---------------------------------------------------------------------

  /** The first loop of clean-up. */
  method FindFirstAppearances(w: WorkingSet, dates: seq<Date>) returns (first: FirstMap)
    ensures first == Pass1(w, dates)
  {
    first := map[];
    var i := 0;
    while i < |dates|
      invariant 0 <= i <= |dates|
      invariant first == Pass1(w, dates[..i])
    {
      var d := dates[i];
      assert dates[..i + 1][..i] == dates[..i];
      if Processable(w, d) {
        var rows := w[d].rows;
        ghost var start := first;
        var j := 0;
        while j < |rows|
          invariant 0 <= j <= |rows|
          invariant first == FirstInFile(start, d, rows[..j])
        {
          assert rows[..j + 1][..j] == rows[..j];
          var r := rows[j];
          var name := Get(r, "name");
          if name != Missing && name != Text("") {
            var k := ProjectKey(name, Get(r, "homepage"));
            if k !in first {
              first := first[k := FirstSeen(d, Get(r, "category"), Get(r, "labels"))];
            }
          }
          j := j + 1;
        }
        assert rows[..|rows|] == rows;
      }
      i := i + 1;
    }
    assert dates[..|dates|] == dates;
  }

  /** The key-to-index loop of pass 2. */
  method IndexExisting(rows: seq<Row>) returns (idx: map<ProjectKey, int>)
    ensures idx == ExistingIndex(rows)
  {
    idx := map[];
    var i := 0;
    while i < |rows|
      invariant 0 <= i <= |rows|
      invariant idx == ExistingIndex(rows[..i])
    {
      assert rows[..i + 1][..i] == rows[..i];
      var name := Get(rows[i], "name");
      if name != Missing && name != Text("") {
        idx := idx[ProjectKey(name, Get(rows[i], "homepage")) := i];
      }
      i := i + 1;
    }
    assert rows[..|rows|] == rows;
  }

  /** No key handled yet: the rows as they are. */
  lemma RewrittenNone(rows: seq<Row>, first: FirstMap)
    ensures Rewritten(rows, first, {}) == rows
  {
  }

  /** The last row of a key is the one the index holds for it. */
  lemma LastIsIndexed(rows: seq<Row>, k: ProjectKey, i: int)
    ensures IsLast(rows, i, k) <==> k in ExistingIndex(rows) && i == ExistingIndex(rows)[k]
  {
    var idx := ExistingIndex(rows);
    ExistingIndexSpec(rows, k);
    if IsLast(rows, i, k) {
      assert HasKey(rows, k);
    }
  }

  /**
   * Handling one more key `k` rewrites at most the row the index gives for
   * it, and only when its category or labels differ.
   */
  lemma RewrittenStep(rows: seq<Row>, first: FirstMap, done: set<ProjectKey>, k: ProjectKey)
    requires k !in done && k in first
    ensures var idx := ExistingIndex(rows);
      k in idx ==> 0 <= idx[k] < |rows| && Rewritten(rows, first, done)[idx[k]] == rows[idx[k]]
    ensures var idx := ExistingIndex(rows);
      !(k in idx && Differs(rows[idx[k]], first[k])) ==>
      Rewritten(rows, first, done + {k}) == Rewritten(rows, first, done)
    ensures var idx := ExistingIndex(rows);
      k in idx && Differs(rows[idx[k]], first[k]) ==>
      Rewritten(rows, first, done + {k}) == Rewritten(rows, first, done)[idx[k] := Overwrite(rows[idx[k]], first[k])]
  {
    var idx := ExistingIndex(rows);
    ExistingIndexSpec(rows, k);
    var before := Rewritten(rows, first, done);
    var after := Rewritten(rows, first, done + {k});
    forall i | 0 <= i < |rows| && !(k in idx && i == idx[k]) ensures after[i] == before[i] {
      LastIsIndexed(rows, k, i);
    }
    if k in idx {
      LastIsIndexed(rows, k, idx[k]);
    }
  }

  /** Handling key `k` makes the rows differ from the input exactly when they did already or its indexed row differs. */
  lemma ModifiedStep(rows: seq<Row>, first: FirstMap, done: set<ProjectKey>, k: ProjectKey)
    requires k !in done && k in first
    ensures var idx := ExistingIndex(rows);
      (Rewritten(rows, first, done + {k}) != rows) <==>
      (Rewritten(rows, first, done) != rows || (k in idx && 0 <= idx[k] < |rows| && Differs(rows[idx[k]], first[k])))
  {
    var idx := ExistingIndex(rows);
    RewrittenStep(rows, first, done, k);
    if k in idx && Differs(rows[idx[k]], first[k]) {
      var i := idx[k];
      OverwriteKeepsKey(rows[i], first[k]);
      assert Rewritten(rows, first, done + {k})[i] != rows[i];
    }
  }

  /**
   * Pass 2 in one file: for every known key present in the file, overwrite
   * its indexed row when its category or labels differ. `modified` is set
   * exactly when some row changed.
   */
  method ReconcileFile(rows: seq<Row>, first: FirstMap) returns (out: seq<Row>, modified: bool)
    ensures out == Reconciled(rows, first)
    ensures modified <==> out != rows
  {
    var idx := IndexExisting(rows);
    out := rows;
    modified := false;
    var todo := first.Keys;
    assert first.Keys - todo == {};
    RewrittenNone(rows, first);
    while todo != {}
      invariant todo <= first.Keys
      invariant out == Rewritten(rows, first, first.Keys - todo)
      invariant modified <==> out != rows
      decreases |todo|
    {
      var k :| k in todo;
      ghost var done := first.Keys - todo;
      RewrittenStep(rows, first, done, k);
      ModifiedStep(rows, first, done, k);
      if k in idx {
        var i := idx[k];
        if Differs(out[i], first[k]) {
          out := out[i := Overwrite(out[i], first[k])];
          modified := true;
        }
      }
      todo := todo - {k};
      assert first.Keys - todo == done + {k};
    }
    assert first.Keys - todo == first.Keys;
  }

  /** Pass 2 over one more date: that file is written back when it changes. */
  lemma Pass2Step(w: WorkingSet, dates: seq<Date>, first: FirstMap, i: nat)
    requires i < |dates|
    ensures var (w1, count) := Pass2(w, dates[..i], first); var d := dates[i];
      Pass2(w, dates[..i + 1], first)
        == if Changes(w1, d, first) then (w1[d := Table(w1[d].columns, Reconciled(RowsOf(w1, d), first))], count + 1)
           else (w1, count)
  {
    assert dates[..i + 1][..i] == dates[..i];
  }

  /** The second loop of clean-up, with the number of files written back. */
  method EnsureConsistency(w: WorkingSet, dates: seq<Date>, first: FirstMap) returns (w': WorkingSet, count: nat)
    ensures (w', count) == Pass2(w, dates, first)
  {
    w' := w;
    count := 0;
    var i := 0;
    while i < |dates|
      invariant 0 <= i <= |dates|
      invariant (w', count) == Pass2(w, dates[..i], first)
    {
      var d := dates[i];
      Pass2Step(w, dates, first, i);
      if Processable(w', d) {
        var t := w'[d];
        var rows, modified := ReconcileFile(t.rows, first);
        if modified {
          w' := w'[d := Table(t.columns, rows)];
          count := count + 1;
        }
      }
      i := i + 1;
    }
    assert dates[..|dates|] == dates;
  }
}
