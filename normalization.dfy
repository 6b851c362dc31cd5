/**
 * The percentage normalisation `TimeSeriesVisualizer.plot` applies to the
 * dense table before drawing it: every cell is divided by its row's total and
 * multiplied by 100. The table `process_data` builds has object-dtype
 * columns, so the division is Python's float division cell by cell, and a
 * zero row total raises `ZeroDivisionError` out of `plot`.
 */
module Normalization {
  import opened Wrappers
  import opened Visualizer

  /** Why normalising a table can fail. */
  datatype PlotError = ZeroRowTotal

  /** The sum of a row of the table. */
  function Sum(xs: seq<real>): real {
    if xs == [] then 0.0 else Sum(xs[..|xs| - 1]) + xs[|xs| - 1]
  }

  /**
   * The percentages of one row, `cell / row_total * 100` for each cell; a
   * row with a cell and a zero total makes the division raise.
   */
  function NormalizedRow(row: seq<real>): (r: Result<seq<real>, PlotError>)
    ensures r.Err? <==> |row| > 0 && Sum(row) == 0.0
    ensures r.Ok? ==> |r.value| == |row| && forall j :: 0 <= j < |row| ==> r.value[j] * Sum(row) == row[j] * 100.0
  {
    if |row| > 0 && Sum(row) == 0.0 then Err(ZeroRowTotal)
    else Ok(seq(|row|, j requires 0 <= j < |row| => row[j] / Sum(row) * 100.0))
  }

  /**
   * The column loop of `plot(normalize=True)`: the row totals are taken
   * first, then each column in turn is replaced by its percentages. The first
   * column already divides by every total, so the loop fails at once when
   * some row has a zero total.
   */
  method Normalize(t: SeriesTable) returns (out: Result<seq<seq<real>>, PlotError>)
    requires forall i :: 0 <= i < |t.cells| ==> |t.cells[i]| == |t.columns|
    ensures out.Err? <==> exists i :: 0 <= i < |t.cells| && NormalizedRow(t.cells[i]).Err?
    ensures out.Ok? ==> |out.value| == |t.cells| && forall i :: 0 <= i < |t.cells| ==> Ok(out.value[i]) == NormalizedRow(t.cells[i])
  {
    var cells := t.cells;
    var width := |t.columns|;
    var sums := seq(|cells|, i requires 0 <= i < |cells| => Sum(cells[i]));
    var table := cells;
    var j := 0;
    while j < width
      invariant 0 <= j <= width
      invariant |table| == |cells|
      invariant j > 0 ==> forall i :: 0 <= i < |cells| ==> sums[i] != 0.0
      invariant forall i :: 0 <= i < |table| ==> |table[i]| == width
      invariant forall i, k :: 0 <= i < |table| && 0 <= k < j ==> table[i][k] == cells[i][k] / sums[i] * 100.0
      invariant forall i, k :: 0 <= i < |table| && j <= k < width ==> table[i][k] == cells[i][k]
    {
      if exists i :: 0 <= i < |cells| && sums[i] == 0.0 {
        out := Err(ZeroRowTotal);
        return;
      }
      table := seq(|table|, i requires 0 <= i < |table| => table[i][j := cells[i][j] / sums[i] * 100.0]);
      j := j + 1;
    }
    forall i | 0 <= i < |cells|
      ensures NormalizedRow(cells[i]) == Ok(table[i])
    {
      if width > 0 {
        assert table[i] == seq(width, k requires 0 <= k < width => cells[i][k] / Sum(cells[i]) * 100.0);
      } else {
        assert table[i] == [];
      }
    }
    out := Ok(table);
  }

  lemma DivAdd(a: real, b: real, t: real)
    requires t != 0.0
    ensures (a + b) / t * 100.0 == a / t * 100.0 + b / t * 100.0
  {
    assert (a / t + b / t) * t == a + b;
    assert (a + b) / t == a / t + b / t;
  }

  /** The sum of the percentages of a row is the row's total, divided by `t`, times 100. */
  lemma {:induction false} SumOfPercentages(row: seq<real>, t: real)
    requires t != 0.0
    ensures Sum(seq(|row|, j requires 0 <= j < |row| => row[j] / t * 100.0)) == Sum(row) / t * 100.0
  {
    var p := seq(|row|, j requires 0 <= j < |row| => row[j] / t * 100.0);
    if row != [] {
      var pre := row[..|row| - 1];
      var q := seq(|pre|, j requires 0 <= j < |pre| => pre[j] / t * 100.0);
      SumOfPercentages(pre, t);
      assert p[..|p| - 1] == q;
      DivAdd(Sum(pre), row[|row| - 1], t);
    }
  }

  /** A row with a non-zero total is normalised to percentages that add up to 100. */
  lemma PercentagesAddUpTo100(row: seq<real>)
    requires Sum(row) != 0.0
    ensures NormalizedRow(row).Ok?
    ensures Sum(NormalizedRow(row).value) == 100.0
  {
    var t := Sum(row);
    var q := seq(|row|, j requires 0 <= j < |row| => row[j] / t * 100.0);
    assert NormalizedRow(row).value == q;
    SumOfPercentages(row, t);
    assert t / t == 1.0;
  }

  /** A total of non-negative values is non-negative, and zero exactly when every value is. */
  lemma {:induction false} ZeroSumOfNonNegative(row: seq<real>)
    requires forall j :: 0 <= j < |row| ==> row[j] >= 0.0
    ensures Sum(row) >= 0.0
    ensures Sum(row) == 0.0 <==> forall j :: 0 <= j < |row| ==> row[j] == 0.0
  {
    if row != [] {
      var pre := row[..|row| - 1];
      ZeroSumOfNonNegative(pre);
      if Sum(row) == 0.0 {
        forall j | 0 <= j < |row| ensures row[j] == 0.0 {
          if j < |pre| {
            assert row[j] == pre[j];
          }
        }
      }
      if forall j :: 0 <= j < |row| ==> row[j] == 0.0 {
        forall j | 0 <= j < |pre| ensures pre[j] == 0.0 {
          assert pre[j] == row[j];
        }
      }
    }
  }

  /**
   * A non-empty row of non-negative values, such as a date whose aggregate
   * lacks every group, makes normalisation fail exactly when all its values
   * are zero.
   */
  lemma ZeroRowFails(row: seq<real>)
    requires |row| > 0
    requires forall j :: 0 <= j < |row| ==> row[j] >= 0.0
    ensures NormalizedRow(row).Err? <==> forall j :: 0 <= j < |row| ==> row[j] == 0.0
  {
    ZeroSumOfNonNegative(row);
  }

  /** A row whose values cancel out has a zero total, so it fails as well. */
  lemma MixedSignRow()
    ensures Sum([5.0, -5.0]) == 0.0
    ensures NormalizedRow([5.0, -5.0]) == Err(ZeroRowTotal)
  {
    var row := [5.0, -5.0];
    assert row[..1] == [5.0];
    assert [5.0][..0] == [];
    assert Sum(row) == 0.0;
  }
}
