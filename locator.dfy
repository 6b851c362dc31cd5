/**
 * The snapshot locator that `TimeSeriesVisualizer._find_csv_files` and
 * `TimeSeriesExtrapolator._find_csv_files` share: list the history
 * directory, keep the names that carry a date, sort them by date (a stable
 * sort) and sample them with a stride that always keeps the first and the
 * last snapshot.
 */
module Locator {
  import opened Wrappers
  import opened Calendar
  import opened Tables

  /** One entry of `os.listdir`, with the table `pd.read_csv` reads from it. */
  datatype DirEntry = DirEntry(name: string, table: Table)

  /** A directory listing, in the order the operating system returns it. */
  type Directory = seq<DirEntry>

  /** A located snapshot: its date, its file name (standing for its path) and its contents. */
  datatype SnapshotFile = SnapshotFile(date: Date, name: string, table: Table)

  function Names(s: seq<SnapshotFile>): (r: seq<string>)
    ensures |r| == |s| && forall i :: 0 <= i < |s| ==> r[i] == s[i].name
  {
    seq(|s|, i requires 0 <= i < |s| => s[i].name)
  }

  function Dates(s: seq<SnapshotFile>): (r: seq<Date>)
    ensures |r| == |s| && forall i :: 0 <= i < |s| ==> r[i] == s[i].date
  {
    seq(|s|, i requires 0 <= i < |s| => s[i].date)
  }

  predicate DistinctNames(s: seq<SnapshotFile>) {
    forall i, j :: 0 <= i < j < |s| ==> s[i].name != s[j].name
  }

  /** File names in a directory are unique. */
  predicate DistinctListing(dir: Directory) {
    forall i, j :: 0 <= i < j < |dir| ==> dir[i].name != dir[j].name
  }

  predicate Ascending(s: seq<SnapshotFile>) {
    forall i, j :: 0 <= i < j < |s| ==> DateLe(s[i].date, s[j].date)
  }

  predicate AscendingDates(s: seq<Date>) {
    forall i, j :: 0 <= i < j < |s| ==> DateLe(s[i], s[j])
  }

  /** The entries whose name carries a valid date, in listing order. */
  function Matching(dir: Directory): (r: seq<SnapshotFile>)
    ensures |r| <= |dir|
    ensures forall i :: 0 <= i < |r| ==> ExtractDate(r[i].name) == Some(r[i].date)
  {
    if dir == [] then []
    else
      var prev := Matching(dir[..|dir| - 1]);
      var e := dir[|dir| - 1];
      match ExtractDate(e.name)
      case None => prev
      case Some(d) => prev + [SnapshotFile(d, e.name, e.table)]
  }

  /** Directory entry `e` is what `pd.read_csv` read for the located file `f`. */
  predicate Locates(e: DirEntry, f: SnapshotFile) {
    e.name == f.name && e.table == f.table && ExtractDate(e.name) == Some(f.date)
  }

  /**
   * A file is located exactly when it is a directory entry whose name parses
   * to its date; names that do not match are never located.
   */
  lemma {:induction false} MatchingExactly(dir: Directory, f: SnapshotFile)
    ensures f in Matching(dir) <==> exists i :: 0 <= i < |dir| && Locates(dir[i], f)
  {
    if dir != [] {
      var pre := dir[..|dir| - 1];
      var e := dir[|dir| - 1];
      MatchingExactly(pre, f);
      var inPre := exists i :: 0 <= i < |pre| && Locates(pre[i], f);
      var inDir := exists i :: 0 <= i < |dir| && Locates(dir[i], f);
      if inPre {
        var i :| 0 <= i < |pre| && Locates(pre[i], f);
        assert dir[i] == pre[i];
      }
      if inDir {
        var i :| 0 <= i < |dir| && Locates(dir[i], f);
        if i < |pre| {
          assert pre[i] == dir[i];
        }
      }
      assert inDir <==> inPre || Locates(e, f);
      match ExtractDate(e.name)
      case None =>
        assert !Locates(e, f);
      case Some(d) =>
        assert Locates(e, f) <==> f == SnapshotFile(d, e.name, e.table);
    }
  }

  /** Every located file comes from a listed entry of the same name. */
  lemma {:induction false} MatchingNames(dir: Directory, f: SnapshotFile)
    requires f in Matching(dir)
    ensures exists i :: 0 <= i < |dir| && dir[i].name == f.name
  {
    var pre := dir[..|dir| - 1];
    if f in Matching(pre) {
      MatchingNames(pre, f);
      var i :| 0 <= i < |pre| && pre[i].name == f.name;
      assert dir[i] == pre[i];
    } else {
      assert dir[|dir| - 1].name == f.name;
    }
  }

  /** Distinct names in the listing stay distinct among the located files. */
  lemma {:induction false} MatchingDistinct(dir: Directory)
    requires DistinctListing(dir)
    ensures DistinctNames(Matching(dir))
  {
    if dir != [] {
      var pre := dir[..|dir| - 1];
      var e := dir[|dir| - 1];
      assert DistinctListing(pre);
      MatchingDistinct(pre);
      var m := Matching(pre);
      forall f | f in m ensures f.name != e.name {
        MatchingNames(pre, f);
        var i :| 0 <= i < |pre| && pre[i].name == f.name;
        assert dir[i] == pre[i];
      }
      match ExtractDate(e.name)
      case None =>
      case Some(d) =>
        var r := m + [SnapshotFile(d, e.name, e.table)];
        forall a, b | 0 <= a < b < |r| ensures r[a].name != r[b].name {
          assert r[a] == m[a];
          if b < |m| {
            assert r[b] == m[b];
          } else {
            assert m[a] in m;
          }
        }
    }
  }

  /** Stable insertion: `x` goes before the first element that is not earlier than it. */
  function Insert(x: SnapshotFile, s: seq<SnapshotFile>): (r: seq<SnapshotFile>)
    ensures |r| == |s| + 1
  {
    if s == [] || DateLe(x.date, s[0].date) then [x] + s
    else [s[0]] + Insert(x, s[1..])
  }

  /** Insertion adds `x` and keeps every other file. */
  lemma {:induction false} InsertPermutes(x: SnapshotFile, s: seq<SnapshotFile>)
    ensures multiset(Insert(x, s)) == multiset(s) + multiset{x}
  {
    if s != [] && !DateLe(x.date, s[0].date) {
      assert s == [s[0]] + s[1..];
      InsertPermutes(x, s[1..]);
    }
  }

  /** Inserting into a date-ascending list keeps it date-ascending. */
  lemma AscendingCons(h: SnapshotFile, t: seq<SnapshotFile>)
    requires Ascending(t)
    requires forall y :: y in t ==> DateLe(h.date, y.date)
    ensures Ascending([h] + t)
  {
    var r := [h] + t;
    forall a, b | 0 <= a < b < |r| ensures DateLe(r[a].date, r[b].date) {
      if a == 0 {
        assert r[b] == t[b - 1];
      } else {
        assert r[a] == t[a - 1] && r[b] == t[b - 1];
      }
    }
  }

  lemma {:induction false} InsertAscending(x: SnapshotFile, s: seq<SnapshotFile>)
    requires Ascending(s)
    ensures Ascending(Insert(x, s))
  {
    if s == [] {
      assert Insert(x, s) == [x];
    } else if DateLe(x.date, s[0].date) {
      forall y | y in s ensures DateLe(x.date, y.date) {
        var j :| 0 <= j < |s| && s[j] == y;
        DateLeTrans(x.date, s[0].date, y.date);
      }
      AscendingCons(x, s);
    } else {
      var rest := Insert(x, s[1..]);
      InsertAscending(x, s[1..]);
      InsertPermutes(x, s[1..]);
      forall y | y in rest ensures DateLe(s[0].date, y.date) {
        assert y in multiset(s[1..]) + multiset{x};
        if y != x {
          var j :| 0 <= j < |s[1..]| && s[1..][j] == y;
          assert s[j + 1] == y;
        }
      }
      AscendingCons(s[0], rest);
    }
  }

  /** `list.sort(key=date)`: a stable sort by date. */
  function SortByDate(s: seq<SnapshotFile>): (r: seq<SnapshotFile>)
    ensures |r| == |s|
  {
    if s == [] then []
    else
      Insert(s[0], SortByDate(s[1..]))
  }

  /** Sorting permutes the files. */
  lemma {:induction false} SortByDatePermutes(s: seq<SnapshotFile>)
    ensures multiset(SortByDate(s)) == multiset(s)
  {
    if s != [] {
      assert s == [s[0]] + s[1..];
      SortByDatePermutes(s[1..]);
      InsertPermutes(s[0], SortByDate(s[1..]));
    }
  }

  /** The sorted files are in date order. */
  lemma {:induction false} SortByDateAscending(s: seq<SnapshotFile>)
    ensures Ascending(SortByDate(s))
  {
    if s != [] {
      SortByDateAscending(s[1..]);
      InsertAscending(s[0], SortByDate(s[1..]));
    }
  }

  /** Sorting keeps file names distinct. */
  lemma {:induction false} SortKeepsDistinct(s: seq<SnapshotFile>)
    requires DistinctNames(s)
    ensures DistinctNames(SortByDate(s))
  {
    if s != [] {
      var t := SortByDate(s[1..]);
      assert DistinctNames(s[1..]);
      SortKeepsDistinct(s[1..]);
      forall y | y in t ensures y.name != s[0].name {
        SortedMembers(s[1..], y);
        var j :| 0 <= j < |s[1..]| && s[1..][j] == y;
        assert s[j + 1] == y;
      }
      InsertKeepsDistinct(s[0], t);
    }
  }

  /** Insertion adds `x` and nothing else. */
  lemma {:induction false} InsertMembers(x: SnapshotFile, s: seq<SnapshotFile>, y: SnapshotFile)
    ensures y in Insert(x, s) <==> y == x || y in s
  {
    if s != [] && !DateLe(x.date, s[0].date) {
      InsertMembers(x, s[1..], y);
      assert s == [s[0]] + s[1..];
    }
  }

  /** A file whose name is new may go in front of a list of distinct names. */
  lemma DistinctCons(h: SnapshotFile, t: seq<SnapshotFile>)
    requires DistinctNames(t)
    requires forall y :: y in t ==> y.name != h.name
    ensures DistinctNames([h] + t)
  {
    var r := [h] + t;
    forall a, b | 0 <= a < b < |r| ensures r[a].name != r[b].name {
      assert r[b] == t[b - 1];
      if a > 0 {
        assert r[a] == t[a - 1];
      }
    }
  }

  lemma {:induction false} InsertKeepsDistinct(x: SnapshotFile, s: seq<SnapshotFile>)
    requires DistinctNames(s)
    requires forall y :: y in s ==> y.name != x.name
    ensures DistinctNames(Insert(x, s))
  {
    if s == [] || DateLe(x.date, s[0].date) {
      DistinctCons(x, s);
    } else {
      var rest := Insert(x, s[1..]);
      assert DistinctNames(s[1..]);
      InsertKeepsDistinct(x, s[1..]);
      forall y | y in rest ensures y.name != s[0].name {
        InsertMembers(x, s[1..], y);
        if y != x {
          var j :| 0 <= j < |s[1..]| && s[1..][j] == y;
          assert s[j + 1] == y;
        }
      }
      DistinctCons(s[0], rest);
    }
  }

  /** Sorting keeps the same files. */
  lemma SortedMembers(s: seq<SnapshotFile>, x: SnapshotFile)
    ensures x in SortByDate(s) <==> x in s
  {
    SortByDatePermutes(s);
    assert x in s <==> x in multiset(s);
    assert x in SortByDate(s) <==> x in multiset(SortByDate(s));
  }

  /** In a date-ascending list the first and last dates bound every date. */
  lemma AscendingEnds(r: seq<SnapshotFile>, i: int)
    requires Ascending(r) && 0 <= i < |r|
    ensures DateLe(r[0].date, r[i].date) && DateLe(r[i].date, r[|r| - 1].date)
  {
    if 0 < i {
      assert DateLe(r[0].date, r[i].date);
    }
    if i < |r| - 1 {
      assert DateLe(r[i].date, r[|r| - 1].date);
    }
  }

  /** The first and last sorted files hold the earliest and the latest date of all. */
  lemma SortedEnds(s: seq<SnapshotFile>, f: SnapshotFile)
    requires f in s
    ensures var r := SortByDate(s);
      |r| > 0 && DateLe(r[0].date, f.date) && DateLe(f.date, r[|r| - 1].date)
    ensures var r := SortByDate(s); r[0] in s && r[|r| - 1] in s
  {
    var r := SortByDate(s);
    SortedMembers(s, f);
    var i :| 0 <= i < |r| && r[i] == f;
    SortByDateAscending(s);
    AscendingEnds(r, i);
    var first, last := r[0], r[|r| - 1];
    SortedMembers(s, first);
    SortedMembers(s, last);
  }

  /** The elements at `i`, `i + k`, `i + 2k`, ... that lie below the last index. */
  function Stride<T>(s: seq<T>, i: nat, k: nat): seq<T>
    requires k >= 1
    decreases |s| - i
  {
    if i + 1 >= |s| then [] else [s[i]] + Stride(s, i + k, k)
  }

  /** The `m`-th element of a stride is `s[i + m * k]`, and it lies below the last index. */
  lemma {:induction false} StrideAt<T>(s: seq<T>, i: nat, k: nat, m: nat)
    requires k >= 1
    ensures m < |Stride(s, i, k)| <==> i + m * k + 1 < |s|
    ensures m < |Stride(s, i, k)| ==> Stride(s, i, k)[m] == s[i + m * k]
    decreases |s| - i
  {
    if i + 1 < |s| && m > 0 {
      StrideAt(s, i + k, k, m - 1);
      assert i + k + (m - 1) * k == i + m * k;
    }
  }

  /** Every element of a stride is an element at an index from `i` up to, but not including, the last. */
  lemma {:induction false} StrideFrom<T>(s: seq<T>, i: nat, k: nat, x: T)
    requires k >= 1
    requires x in Stride(s, i, k)
    ensures exists j :: i <= j < |s| - 1 && s[j] == x
    decreases |s| - i
  {
    if x != s[i] {
      StrideFrom(s, i + k, k, x);
    }
  }

  /**
   * `_find_csv_files` sampling: with a stride above 1 and more than two
   * files, the first file, then the files at 1, 1 + k, 1 + 2k, ... below the
   * last index, then the last file if its path is not already taken;
   * otherwise every file.
   */
  function Sampled(all: seq<SnapshotFile>, k: int): seq<SnapshotFile> {
    if k > 1 && |all| > 2 then
      var head := [all[0]] + Stride(all, 1, k);
      if all[|all| - 1].name in Names(head) then head else head + [all[|all| - 1]]
    else all
  }

  /** Sampling only ever takes files from the list it samples. */
  lemma SampledFromAll(all: seq<SnapshotFile>, k: int, f: SnapshotFile)
    requires f in Sampled(all, k)
    ensures f in all
  {
    if k > 1 && |all| > 2 && f != all[0] && f != all[|all| - 1] {
      assert f in Stride(all, 1, k);
      StrideFrom(all, 1, k, f);
    }
  }

  /**
   * With distinct file names the last file is always appended: the result is
   * the first file, the stride, and the last file.
   */
  lemma SampledShape(all: seq<SnapshotFile>, k: int)
    requires DistinctNames(all)
    requires k > 1 && |all| > 2
    ensures Sampled(all, k) == [all[0]] + Stride(all, 1, k) + [all[|all| - 1]]
  {
    var head := [all[0]] + Stride(all, 1, k);
    var last := all[|all| - 1];
    if last.name in Names(head) {
      var p :| 0 <= p < |head| && Names(head)[p] == last.name;
      if p > 0 {
        assert head[p] in Stride(all, 1, k);
        StrideFrom(all, 1, k, head[p]);
      }
      assert false;
    }
  }

  /** Sampling never reorders: a date-ascending list gives a date-ascending sample. */
  lemma SampledAscending(all: seq<SnapshotFile>, k: int)
    requires Ascending(all)
    ensures Ascending(Sampled(all, k))
  {
    if k > 1 && |all| > 2 {
      StrideAscending(all, 1, k);
      var st := Stride(all, 1, k);
      forall x | x in st ensures DateLe(all[0].date, x.date) && DateLe(x.date, all[|all| - 1].date) {
        StrideFrom(all, 1, k, x);
      }
      var head := [all[0]] + st;
      assert Ascending(head);
      assert Ascending(head + [all[|all| - 1]]) by {
        var h := head + [all[|all| - 1]];
        forall i, j | 0 <= i < j < |h| ensures DateLe(h[i].date, h[j].date) {
          if j == |h| - 1 && i > 0 {
            assert h[i] in st;
          }
        }
      }
    }
  }

  lemma {:induction false} StrideAscending(s: seq<SnapshotFile>, i: nat, k: nat)
    requires k >= 1
    requires Ascending(s)
    ensures Ascending(Stride(s, i, k))
    decreases |s| - i
  {
    if i + 1 < |s| {
      StrideAscending(s, i + k, k);
      var rest := Stride(s, i + k, k);
      forall x | x in rest ensures DateLe(s[i].date, x.date) {
        StrideFrom(s, i + k, k, x);
      }
      var r := [s[i]] + rest;
      forall a, b | 0 <= a < b < |r| ensures DateLe(r[a].date, r[b].date) {
        if a == 0 {
          assert r[b] in rest;
        } else {
          assert r[a] == rest[a - 1] && r[b] == rest[b - 1];
        }
      }
    }
  }

  /** Sampling keeps the first and the last file whenever file names are distinct. */
  lemma SampledEnds(all: seq<SnapshotFile>, k: int)
    requires DistinctNames(all)
    requires |all| > 0
    ensures var r := Sampled(all, k); |r| > 0 && r[0] == all[0] && r[|r| - 1] == all[|all| - 1]
  {
    if k > 1 && |all| > 2 {
      SampledShape(all, k);
    }
  }

  /** The discovery loop: each listed name that carries a date, in listing order. */
  method Discover(history: Directory) returns (found: seq<SnapshotFile>)
    ensures found == Matching(history)
  {
    found := [];
    var i := 0;
    while i < |history|
      invariant 0 <= i <= |history|
      invariant found == Matching(history[..i])
    {
      assert history[..i + 1][..i] == history[..i];
      var e := history[i];
      match ExtractDate(e.name) {
        case None =>
        case Some(d) =>
          found := found + [SnapshotFile(d, e.name, e.table)];
      }
      i := i + 1;
    }
    assert history[..|history|] == history;
  }

  /** The sampling loop over the sorted files. */
  method Sample(all: seq<SnapshotFile>, timeStep: int) returns (sampled: seq<SnapshotFile>)
    ensures sampled == Sampled(all, timeStep)
  {
    if timeStep > 1 && |all| > 2 {
      sampled := [all[0]];
      var j := 1;
      while j < |all| - 1
        invariant 1 <= j
        invariant sampled + Stride(all, j, timeStep) == [all[0]] + Stride(all, 1, timeStep)
        decreases |all| - j
      {
        ghost var rest := Stride(all, j + timeStep, timeStep);
        assert Stride(all, j, timeStep) == [all[j]] + rest;
        assert (sampled + [all[j]]) + rest == sampled + ([all[j]] + rest);
        sampled := sampled + [all[j]];
        j := j + timeStep;
      }
      assert Stride(all, j, timeStep) == [];
      assert sampled == [all[0]] + Stride(all, 1, timeStep);
      if all[|all| - 1].name !in Names(sampled) {
        sampled := sampled + [all[|all| - 1]];
      }
    } else {
      sampled := all;
    }
  }

  /**
   * The discovery, sort and sampling steps of `_find_csv_files`: `all` is
   * every located file in date order, `sampled` the files to process.
   */
  method Locate(history: Directory, timeStep: int) returns (all: seq<SnapshotFile>, sampled: seq<SnapshotFile>)
    ensures all == SortByDate(Matching(history))
    ensures sampled == Sampled(all, timeStep)
  {
    var found := Discover(history);
    all := SortByDate(found);
    sampled := Sample(all, timeStep);
  }

  /** The files `_find_csv_files` returns for a history directory. */
  function Located(history: Directory, timeStep: int): seq<SnapshotFile> {
    Sampled(SortByDate(Matching(history)), timeStep)
  }

  /** Located files have distinct names whenever the listing does. */
  lemma LocatedDistinct(history: Directory)
    requires DistinctListing(history)
    ensures DistinctNames(SortByDate(Matching(history)))
  {
    MatchingDistinct(history);
    SortKeepsDistinct(Matching(history));
  }

  /**
   * What `_find_csv_files` returns for sorted files with distinct names:
   * every file when the stride is at most 1 or there are at most two files;
   * otherwise an ascending sample that starts with the earliest file and
   * ends with the latest.
   */
  lemma SampledFiles(all: seq<SnapshotFile>, k: int)
    requires DistinctNames(all) && Ascending(all)
    ensures Ascending(Sampled(all, k))
    ensures k <= 1 || |all| <= 2 ==> Sampled(all, k) == all
    ensures |all| > 0 ==> |Sampled(all, k)| > 0 && Sampled(all, k)[0] == all[0]
    ensures |all| > 0 ==> Sampled(all, k)[|Sampled(all, k)| - 1] == all[|all| - 1]
  {
    SampledAscending(all, k);
    if |all| > 0 {
      SampledEnds(all, k);
    }
  }
}
