/**
 * `TimeSeriesVisualizer._aggregate_by_label`: per caller-defined group, the
 * sum (or the mean) of one metric over the rows of a snapshot whose labels
 * meet the group.
 */
module Aggregation {
  import opened Wrappers
  import opened Tables
  import opened Labels

  /**
   * `labels_map`: each group name maps to the labels that make a row a member
   * of the group, or to `None`, in which case the group's own name is the
   * one such label.
   */
  type GroupMap = map<string, Option<seq<string>>>

  /** A row with these labels belongs to group `g` (any listed label suffices). */
  predicate InGroup(g: string, spec: Option<seq<string>>, labels: seq<string>) {
    match spec
    case None => g in labels
    case Some(ls) => exists l :: l in ls && l in labels
  }

  /** The row is not dropped (its metric is not NaN) and its labels can be read. */
  predicate Contributes(r: Row, y: string) {
    Get(r, y) != Missing && RowLabels(r).Some?
  }

  /** The row adds its metric to group `g`. */
  predicate Matches(r: Row, y: string, g: string, spec: Option<seq<string>>) {
    Contributes(r, y) && InGroup(g, spec, RowLabels(r).value)
  }

  /** `float(row[y])` of a numeric cell. */
  function Value(c: Cell): real {
    if c.Number? then c.x else 0.0
  }

  /** The sum of the metric over the rows that add to group `g`. */
  function GroupSum(rows: seq<Row>, y: string, g: string, spec: Option<seq<string>>): real {
    if rows == [] then 0.0
    else
      var r := rows[|rows| - 1];
      GroupSum(rows[..|rows| - 1], y, g, spec) + (if Matches(r, y, g, spec) then Value(Get(r, y)) else 0.0)
  }

  /** The number of rows that add to group `g`. */
  function GroupCount(rows: seq<Row>, y: string, g: string, spec: Option<seq<string>>): nat {
    if rows == [] then 0
    else
      var r := rows[|rows| - 1];
      GroupCount(rows[..|rows| - 1], y, g, spec) + (if Matches(r, y, g, spec) then 1 else 0)
  }

  /** A row whose metric `float()` cannot convert, but which some group would add. */
  predicate BadRow(r: Row, y: string, groups: GroupMap) {
    && Contributes(r, y)
    && !Get(r, y).Number?
    && exists g :: g in groups && InGroup(g, groups[g], RowLabels(r).value)
  }

  predicate AnyBad(rows: seq<Row>, y: string, groups: GroupMap) {
    exists i :: 0 <= i < |rows| && BadRow(rows[i], y, groups)
  }

  /** "mean" and "median" divide by the match count; every other method keeps the sum. */
  predicate Divides(how: string) {
    how == "mean" || how == "median"
  }

  /** A group's final value: its sum, divided by its count when the method asks for it and the count is positive. */
  function GroupValue(rows: seq<Row>, y: string, g: string, spec: Option<seq<string>>, how: string): real {
    var n := GroupCount(rows, y, g, spec);
    if Divides(how) && n > 0 then GroupSum(rows, y, g, spec) / (n as real) else GroupSum(rows, y, g, spec)
  }

  /** The result dictionary once every row has been read: one value per group. */
  function Aggregate(rows: seq<Row>, y: string, groups: GroupMap, how: string): (r: map<string, real>)
    ensures r.Keys == groups.Keys
  {
    map g | g in groups :: GroupValue(rows, y, g, groups[g], how)
  }

  /** What `_aggregate_by_label` returns, or the exception it raises. */
  function AggregateSpec(t: Table, y: string, groups: GroupMap, how: string): (r: Result<map<string, real>, Failure>)
    ensures r.Ok? && r.value != map[] ==> r.value.Keys == groups.Keys
    ensures r.Err? ==> r.error == MetricNotNumeric && AnyBad(t.rows, y, groups)
    ensures "labels" !in t.columns || y !in t.columns ==> r == Ok(map[])
  {
    if "labels" !in t.columns || y !in t.columns then Ok(map[])
    else if AnyBad(t.rows, y, groups) then Err(MetricNotNumeric)
    else Ok(Aggregate(t.rows, y, groups, how))
  }

  /** `df.dropna(subset=[y])`: the rows whose metric is present, in their order. */
  function DropNa(rows: seq<Row>, y: string): (r: seq<Row>)
    ensures forall x :: x in r <==> x in rows && Get(x, y) != Missing
    ensures |r| <= |rows|
  {
    if rows == [] then []
    else
      var prev := DropNa(rows[..|rows| - 1], y);
      var x := rows[|rows| - 1];
      assert rows == rows[..|rows| - 1] + [x];
      if Get(x, y) != Missing then prev + [x] else prev
  }

  /** Dropping the rows with a missing metric changes no sum, no count and no failure. */
  lemma {:induction false} DropNaKeeps(rows: seq<Row>, y: string, groups: GroupMap, g: string, spec: Option<seq<string>>)
    ensures GroupSum(DropNa(rows, y), y, g, spec) == GroupSum(rows, y, g, spec)
    ensures GroupCount(DropNa(rows, y), y, g, spec) == GroupCount(rows, y, g, spec)
    ensures AnyBad(DropNa(rows, y), y, groups) <==> AnyBad(rows, y, groups)
  {
    if rows != [] {
      var pre := rows[..|rows| - 1];
      var x := rows[|rows| - 1];
      var prev := DropNa(pre, y);
      DropNaKeeps(pre, y, groups, g, spec);
      if Get(x, y) != Missing {
        assert (prev + [x])[..|prev|] == prev;
        assert AnyBad(prev + [x], y, groups) <==> AnyBad(prev, y, groups) || BadRow(x, y, groups) by {
          AnyBadSnoc(prev, x, y, groups);
        }
      }
      AnyBadSnoc(pre, x, y, groups);
      assert rows == pre + [x];
    }
  }

  lemma AnyBadSnoc(rows: seq<Row>, x: Row, y: string, groups: GroupMap)
    ensures AnyBad(rows + [x], y, groups) <==> AnyBad(rows, y, groups) || BadRow(x, y, groups)
  {
    var s := rows + [x];
    if AnyBad(rows, y, groups) {
      var i :| 0 <= i < |rows| && BadRow(rows[i], y, groups);
      assert s[i] == rows[i];
    }
    if AnyBad(s, y, groups) {
      var i :| 0 <= i < |s| && BadRow(s[i], y, groups);
      if i < |rows| {
        assert s[i] == rows[i];
      }
    }
    assert s[|rows|] == x;
  }

  /**
   * The loop body of `_aggregate_by_label`: each row is read once and adds
   * its metric to every group it matches. `rows` are the rows left after
   * `dropna`.
   */
  method SumByGroup(rows: seq<Row>, y: string, groups: GroupMap) returns (r: Result<map<string, real>, Failure>)
    ensures r.Ok? <==> !AnyBad(rows, y, groups)
    ensures r.Ok? ==> r.value == map g | g in groups :: GroupSum(rows, y, g, groups[g])
    ensures r.Err? ==> r.error == MetricNotNumeric
  {
    var result := map g | g in groups :: 0.0;
    var i := 0;
    while i < |rows|
      invariant 0 <= i <= |rows|
      invariant result.Keys == groups.Keys
      invariant forall g :: g in groups ==> result[g] == GroupSum(rows[..i], y, g, groups[g])
      invariant !AnyBad(rows[..i], y, groups)
    {
      var next := AddRow(result, rows[i], y, groups);
      if next.Err? {
        assert BadRow(rows[i], y, groups);
        return Err(MetricNotNumeric);
      }
      assert rows[..i + 1] == rows[..i] + [rows[i]];
      assert rows[..i + 1][..i] == rows[..i];
      AnyBadSnoc(rows[..i], rows[i], y, groups);
      result := next.value;
      i := i + 1;
    }
    assert rows[..|rows|] == rows;
    r := Ok(result);
  }

  /**
   * One row of that loop: its metric is added to every group it matches,
   * unless `float()` refuses the metric of a row some group would take.
   */
  method AddRow(sums: map<string, real>, row: Row, y: string, groups: GroupMap) returns (r: Result<map<string, real>, Failure>)
    requires sums.Keys == groups.Keys
    ensures r.Err? <==> BadRow(row, y, groups)
    ensures r.Err? ==> r.error == MetricNotNumeric
    ensures r.Ok? ==> r.value.Keys == groups.Keys
    ensures r.Ok? ==> forall g :: g in groups ==>
      r.value[g] == sums[g] + if Matches(row, y, g, groups[g]) then Value(Get(row, y)) else 0.0
  {
    var metric := Get(row, y);
    if metric == Missing {
      return Ok(sums);
    }
    match RowLabels(row) {
      case None =>
        return Ok(sums);
      case Some(ls) =>
        if !metric.Number? && exists g :: g in groups && InGroup(g, groups[g], ls) {
          return Err(MetricNotNumeric);
        }
        r := Ok(map g | g in groups :: if InGroup(g, groups[g], ls) then sums[g] + Value(metric) else sums[g]);
    }
  }

  /** The counting loop that "mean" and "median" run over the same rows. */
  method CountByGroup(rows: seq<Row>, y: string, groups: GroupMap) returns (counts: map<string, nat>)
    ensures counts == map g | g in groups :: GroupCount(rows, y, g, groups[g])
  {
    counts := map g | g in groups :: 0;
    var i := 0;
    while i < |rows|
      invariant 0 <= i <= |rows|
      invariant counts.Keys == groups.Keys
      invariant forall g :: g in groups ==> counts[g] == GroupCount(rows[..i], y, g, groups[g])
    {
      var row := rows[i];
      assert rows[..i + 1][..i] == rows[..i];
      if Get(row, y) != Missing {
        match RowLabels(row) {
          case None =>
          case Some(ls) =>
            counts := map g | g in groups :: if InGroup(g, groups[g], ls) then counts[g] + 1 else counts[g];
        }
      }
      i := i + 1;
    }
    assert rows[..|rows|] == rows;
  }

  /** Dropping the rows with a missing metric leaves the result dictionary as it is. */
  lemma AggregateDropNa(rows: seq<Row>, y: string, groups: GroupMap, how: string)
    ensures Aggregate(DropNa(rows, y), y, groups, how) == Aggregate(rows, y, groups, how)
    ensures AnyBad(DropNa(rows, y), y, groups) <==> AnyBad(rows, y, groups)
  {
    forall g | g in groups
      ensures GroupValue(DropNa(rows, y), y, g, groups[g], how) == GroupValue(rows, y, g, groups[g], how)
    {
      DropNaKeeps(rows, y, groups, g, groups[g]);
    }
    DropNaKeeps(rows, y, groups, "", None);
  }

  /** The division step applied to the sums and the counts gives the result dictionary. */
  lemma DivisionStep(rows: seq<Row>, y: string, groups: GroupMap, how: string,
                     sums: map<string, real>, counts: map<string, nat>)
    requires sums == map g | g in groups :: GroupSum(rows, y, g, groups[g])
    requires counts == map g | g in groups :: GroupCount(rows, y, g, groups[g])
    ensures Divides(how) ==>
      (map g | g in sums :: if counts[g] > 0 then sums[g] / (counts[g] as real) else sums[g])
        == Aggregate(rows, y, groups, how)
    ensures !Divides(how) ==> sums == Aggregate(rows, y, groups, how)
  {
  }

  /** `_aggregate_by_label`. */
  method AggregateByLabel(t: Table, y: string, groups: GroupMap, how: string) returns (r: Result<map<string, real>, Failure>)
    ensures r == AggregateSpec(t, y, groups, how)
  {
    if "labels" !in t.columns || y !in t.columns {
      return Ok(map[]);
    }
    var rows := DropNa(t.rows, y);
    AggregateDropNa(t.rows, y, groups, how);
    var sums := SumByGroup(rows, y, groups);
    if sums.Err? {
      return sums;
    }
    var result := sums.value;
    if Divides(how) {
      var counts := CountByGroup(rows, y, groups);
      DivisionStep(rows, y, groups, how, result, counts);
      result := map g | g in result :: if counts[g] > 0 then result[g] / (counts[g] as real) else result[g];
    } else {
      DivisionStep(rows, y, groups, how, result, map g | g in groups :: GroupCount(rows, y, g, groups[g]));
    }
    r := Ok(result);
  }

  /** Group sums and counts split over a concatenation of row lists. */
  lemma {:induction false} SumAppend(a: seq<Row>, b: seq<Row>, y: string, g: string, spec: Option<seq<string>>)
    ensures GroupSum(a + b, y, g, spec) == GroupSum(a, y, g, spec) + GroupSum(b, y, g, spec)
    ensures GroupCount(a + b, y, g, spec) == GroupCount(a, y, g, spec) + GroupCount(b, y, g, spec)
    decreases |b|
  {
    if b == [] {
      assert a + b == a;
    } else {
      var b' := b[..|b| - 1];
      SumAppend(a, b', y, g, spec);
      assert (a + b)[..|a + b| - 1] == a + b';
    }
  }

  /** Taking one row out of a list takes its share out of the sum and the count. */
  lemma SumRemove(a: seq<Row>, p: nat, y: string, g: string, spec: Option<seq<string>>)
    requires p < |a|
    ensures GroupSum(a, y, g, spec)
         == GroupSum(a[..p] + a[p + 1..], y, g, spec) + (if Matches(a[p], y, g, spec) then Value(Get(a[p], y)) else 0.0)
    ensures GroupCount(a, y, g, spec)
         == GroupCount(a[..p] + a[p + 1..], y, g, spec) + (if Matches(a[p], y, g, spec) then 1 else 0)
  {
    assert a == (a[..p] + [a[p]]) + a[p + 1..];
    SumAppend(a[..p] + [a[p]], a[p + 1..], y, g, spec);
    SumAppend(a[..p], a[p + 1..], y, g, spec);
    assert (a[..p] + [a[p]])[..p] == a[..p];
  }

  /** Taking the last element of `b` out of both lists keeps them permutations of each other. */
  lemma RemoveMatching(a: seq<Row>, b: seq<Row>, p: nat)
    requires multiset(a) == multiset(b) && b != []
    requires p < |a| && a[p] == b[|b| - 1]
    ensures multiset(a[..p] + a[p + 1..]) == multiset(b[..|b| - 1])
  {
    var x := a[p];
    assert a == a[..p] + [x] + a[p + 1..];
    assert b == b[..|b| - 1] + [x];
    calc {
      multiset(a[..p] + a[p + 1..]);
      multiset(a[..p]) + multiset(a[p + 1..]);
      (multiset(a[..p]) + multiset{x} + multiset(a[p + 1..])) - multiset{x};
      multiset(a) - multiset{x};
      multiset(b) - multiset{x};
      (multiset(b[..|b| - 1]) + multiset{x}) - multiset{x};
      multiset(b[..|b| - 1]);
    }
  }

  /** The sum and the count of a group do not depend on the order of the rows. */
  lemma {:induction false} SumPermutation(a: seq<Row>, b: seq<Row>, y: string, g: string, spec: Option<seq<string>>)
    requires multiset(a) == multiset(b)
    ensures GroupSum(a, y, g, spec) == GroupSum(b, y, g, spec)
    ensures GroupCount(a, y, g, spec) == GroupCount(b, y, g, spec)
    decreases |b|
  {
    if b != [] {
      var x := b[|b| - 1];
      assert x in multiset(b);
      var p :| 0 <= p < |a| && a[p] == x;
      RemoveMatching(a, b, p);
      SumPermutation(a[..p] + a[p + 1..], b[..|b| - 1], y, g, spec);
      SumRemove(a, p, y, g, spec);
    }
  }

  /**
   * A row adds to a group's count once, however many of the group's labels
   * it carries: when every row matches, the count is the number of rows.
   */
  lemma {:induction false} CountOfAllMatching(a: seq<Row>, y: string, g: string, spec: Option<seq<string>>)
    requires forall i :: 0 <= i < |a| ==> Matches(a[i], y, g, spec)
    ensures GroupCount(a, y, g, spec) == |a|
  {
    if a != [] {
      CountOfAllMatching(a[..|a| - 1], y, g, spec);
    }
  }

  /** "median" is computed as the mean of the group: the two methods give the same table. */
  lemma MedianIsMean(t: Table, y: string, groups: GroupMap)
    ensures AggregateSpec(t, y, groups, "median") == AggregateSpec(t, y, groups, "mean")
  {
    assert Divides("median") && Divides("mean");
    assert Aggregate(t.rows, y, groups, "median") == Aggregate(t.rows, y, groups, "mean");
  }

  /** A group mapped to `None` behaves exactly like a group listing only its own name. */
  lemma OwnNameGroup(g: string, labels: seq<string>)
    ensures InGroup(g, None, labels) <==> InGroup(g, Some([g]), labels)
  {
    if InGroup(g, None, labels) {
      assert g in [g];
    }
  }

  /**
   * A row with a missing or empty `labels` cell adds to no group, even when
   * its category names the group.
   */
  lemma UnlabelledRowIgnored(rows: seq<Row>, r: Row, y: string, g: string, spec: Option<seq<string>>)
    requires Get(r, "labels") == Missing || Get(r, "labels") == Text("")
    ensures GroupSum(rows + [r], y, g, spec) == GroupSum(rows, y, g, spec)
    ensures GroupCount(rows + [r], y, g, spec) == GroupCount(rows, y, g, spec)
  {
    assert (rows + [r])[..|rows|] == rows;
  }

  /**
   * Two rows of group "ml", with metrics 5 and 3, and a third row outside it
   * with metric 7: the sum is 8, the count 2, and the mean 4.
   */
  lemma SumAndCountExample(a: Row, b: Row, c: Row)
    requires Get(a, "stars") == Number(5.0) && RowLabels(a) == Some(["ml"])
    requires Get(b, "stars") == Number(3.0) && RowLabels(b) == Some(["dft", "ml"])
    requires Get(c, "stars") == Number(7.0) && RowLabels(c) == Some(["dft"])
    ensures GroupSum([a, b, c], "stars", "ml", None) == 8.0
    ensures GroupCount([a, b, c], "stars", "ml", None) == 2
  {
    assert "ml" in ["ml"] && "ml" in ["dft", "ml"] && "ml" !in ["dft"];
    OwnNameMatch(a, "stars", "ml", ["ml"]);
    OwnNameMatch(b, "stars", "ml", ["dft", "ml"]);
    OwnNameMatch(c, "stars", "ml", ["dft"]);
    assert GroupSum([a], "stars", "ml", None) == 5.0 && GroupCount([a], "stars", "ml", None) == 1 by {
      RowStep([], a, "stars", "ml", None);
      assert [] + [a] == [a];
    }
    assert GroupSum([a, b], "stars", "ml", None) == 8.0 && GroupCount([a, b], "stars", "ml", None) == 2 by {
      RowStep([a], b, "stars", "ml", None);
      assert [a] + [b] == [a, b];
    }
    RowStep([a, b], c, "stars", "ml", None);
    assert [a, b] + [c] == [a, b, c];
  }

  /** A row with a metric and readable labels adds to a group named by itself exactly when it carries that label. */
  lemma OwnNameMatch(r: Row, y: string, g: string, labels: seq<string>)
    requires Get(r, y).Number? && RowLabels(r) == Some(labels)
    ensures Matches(r, y, g, None) <==> g in labels
  {
  }

  /** Appending one row adds its share to the sum and the count. */
  lemma RowStep(rows: seq<Row>, r: Row, y: string, g: string, spec: Option<seq<string>>)
    ensures GroupSum(rows + [r], y, g, spec)
         == GroupSum(rows, y, g, spec) + (if Matches(r, y, g, spec) then Value(Get(r, y)) else 0.0)
    ensures GroupCount(rows + [r], y, g, spec)
         == GroupCount(rows, y, g, spec) + (if Matches(r, y, g, spec) then 1 else 0)
  {
    assert (rows + [r])[..|rows|] == rows;
  }

  lemma MeanExample(a: Row, b: Row, c: Row)
    requires Get(a, "stars") == Number(5.0) && RowLabels(a) == Some(["ml"])
    requires Get(b, "stars") == Number(3.0) && RowLabels(b) == Some(["dft", "ml"])
    requires Get(c, "stars") == Number(7.0) && RowLabels(c) == Some(["dft"])
    ensures GroupValue([a, b, c], "stars", "ml", None, "mean") == 4.0
  {
    SumAndCountExample(a, b, c);
  }
}
