/**
 * The data-quality gate `is_abnormal` of calculate_aerodynamics.py: a chain
 * of predicates over the parsed polar table, tried in a fixed order, the
 * first one that holds making the table abnormal. Cells are exact reals;
 * a cell pandas reads as NaN (a short row) is `None`.
 */
module Anomaly {
  import opened Wrappers

  /** One row of the polar report: alpha, CL, CD, CDp, CM, Top_Xtr, Bot_Xtr. */
  datatype Row = Row(
    alpha: Option<real>,
    cl: Option<real>,
    cd: Option<real>,
    cdp: Option<real>,
    cm: Option<real>,
    topXtr: Option<real>,
    botXtr: Option<real>)

  type Table = seq<Row>

  /** Largest CL/CD magnitude a table may show. */
  const MaxLiftDragRatio: real := 500.0

  function Abs(x: real): real
  {
    if x < 0.0 then -x else x
  }

  predicate Complete(r: Row)
  {
    r.alpha.Some? && r.cl.Some? && r.cd.Some? && r.cdp.Some? && r.cm.Some? && r.topXtr.Some? && r.botXtr.Some?
  }

  predicate AllComplete(t: Table)
  {
    forall i :: 0 <= i < |t| ==> Complete(t[i])
  }

  predicate PositiveDrag(t: Table)
    requires AllComplete(t)
  {
    forall i :: 0 <= i < |t| ==> t[i].cd.value > 0.0
  }

  /** `df["CL"].abs().sum()` */
  function SumAbsCl(t: Table): (s: real)
    requires AllComplete(t)
    ensures s >= 0.0
  {
    if t == [] then 0.0 else SumAbsCl(t[..|t| - 1]) + Abs(t[|t| - 1].cl.value)
  }

  /** `df["CD"].abs().sum()` */
  function SumAbsCd(t: Table): (s: real)
    requires AllComplete(t)
    ensures s >= 0.0
  {
    if t == [] then 0.0 else SumAbsCd(t[..|t| - 1]) + Abs(t[|t| - 1].cd.value)
  }

  /** CL/CD of one row; only asked where CD is known to be positive. */
  function Ratio(r: Row): real
    requires Complete(r) && r.cd.value > 0.0
  {
    r.cl.value / r.cd.value
  }

  /** `(df["CL"] / df["CD"]).abs().max()`: attained by some row, bounding every row. */
  function MaxAbsRatio(t: Table): (m: real)
    requires |t| > 0 && AllComplete(t) && PositiveDrag(t)
    ensures forall i :: 0 <= i < |t| ==> Abs(Ratio(t[i])) <= m
    ensures exists i :: 0 <= i < |t| && Abs(Ratio(t[i])) == m
  {
    var last := Abs(Ratio(t[|t| - 1]));
    if |t| == 1 then last
    else
      var m := MaxAbsRatio(t[..|t| - 1]);
      if m < last then last else m
  }

  /**
   * `is_abnormal(df)`: empty table, a missing cell, some CD <= 0, an
   * all-zero CL or CD column, or some |CL/CD| above 500. The division of the
   * last test is well defined because the third test has already failed.
   */
  predicate IsAbnormal(t: Table)
  {
    if |t| == 0 then true
    else if !AllComplete(t) then true
    else if exists i :: 0 <= i < |t| && t[i].cd.value <= 0.0 then true
    else if SumAbsCl(t) == 0.0 || SumAbsCd(t) == 0.0 then true
    else MaxAbsRatio(t) > MaxLiftDragRatio
  }

  /**
   * The row-by-row reading of the gate, with no sums and no maximum: some
   * rows, every cell present, every CD positive, some CL non-zero and no
   * |CL/CD| above 500.
   */
  predicate Acceptable(t: Table)
  {
    && |t| > 0
    && AllComplete(t)
    && PositiveDrag(t)
    && (exists i :: 0 <= i < |t| && t[i].cl.value != 0.0)
    && (forall i :: 0 <= i < |t| ==> Abs(Ratio(t[i])) <= MaxLiftDragRatio)
  }

  /** The absolute CL sum is zero exactly when every CL is zero. */
  lemma {:induction false} SumAbsClZero(t: Table)
    requires AllComplete(t)
    ensures SumAbsCl(t) == 0.0 <==> forall i :: 0 <= i < |t| ==> t[i].cl.value == 0.0
  {
    if t != [] {
      var init := t[..|t| - 1];
      SumAbsClZero(init);
      assert forall i :: 0 <= i < |init| ==> init[i] == t[i];
    }
  }

  /**
   * Once every CD is positive, the absolute CD sum of a non-empty table is
   * positive: the `CD.abs().sum() == 0` half of the fourth test never fires.
   */
  lemma {:induction false} DragSumPositive(t: Table)
    requires |t| > 0 && AllComplete(t) && PositiveDrag(t)
    ensures SumAbsCd(t) > 0.0
  {
    if |t| > 1 {
      DragSumPositive(t[..|t| - 1]);
    }
  }

  /** `is_abnormal` rejects exactly the tables that are not acceptable row by row. */
  lemma AbnormalIffNotAcceptable(t: Table)
    ensures IsAbnormal(t) <==> !Acceptable(t)
  {
    if |t| > 0 && AllComplete(t) && PositiveDrag(t) {
      SumAbsClZero(t);
      DragSumPositive(t);
      if SumAbsCl(t) != 0.0 && MaxAbsRatio(t) > MaxLiftDragRatio {
        var i :| 0 <= i < |t| && Abs(Ratio(t[i])) == MaxAbsRatio(t);
        assert !Acceptable(t);
      }
    }
  }

  /**
   * The first three tests on their own: an empty table, a missing cell
   * anywhere, and a present CD that is not positive each make a table
   * abnormal, whatever the other rows hold.
   */
  lemma AbnormalWhen(t: Table, i: int)
    requires 0 <= i < |t|
    ensures !Complete(t[i]) ==> IsAbnormal(t)
    ensures t[i].cd.Some? && t[i].cd.value <= 0.0 ==> IsAbnormal(t)
    ensures IsAbnormal([])
  {
  }

  /** A table that passes the gate has every CD positive, so CL/CD is defined on every row. */
  lemma NormalTableHasRatios(t: Table)
    requires !IsAbnormal(t)
    ensures |t| > 0 && AllComplete(t) && PositiveDrag(t)
    ensures forall i :: 0 <= i < |t| ==> Abs(Ratio(t[i])) <= MaxLiftDragRatio
  {
    AbnormalIffNotAcceptable(t);
  }
}
