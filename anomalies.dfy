/** The V1 anomaly detector (detect_anomalies) and the two views built on its
    table: the Spike/Drop plot markers and the top-anomaly list. The STL fit,
    its 3-sigma threshold and the isolation forest are library numerics and
    come in as parameters. */
module Anomalies {
  import opened Wrappers
  import DailyGrid

  /** What the STL fit produced: a residual per day, or an exception. */
  datatype StlOutcome = Decomposed(resid: seq<real>) | StlFailed

  /** The tag an anomaly gets from the sign of its residual; Untyped is the
      NaN the column starts out with. */
  datatype AnomalyType = Untyped | Spike | Drop

  /** Reading the residual column after a failed STL fit raises KeyError. */
  datatype DetectError = MissingResiduals

  /** One row of the isolation forest's feature matrix: [y, residual]. */
  datatype Feature = Feature(y: real, residual: real)

  /** What the fitted forest reports: decision_scores_ and labels_. */
  datatype ForestOutput = ForestOutput(scores: seq<real>, labels: seq<int>)

  /** One row of the finished table, indexed by its day. */
  datatype AnomalyRow = AnomalyRow(
    ds: int, y: real, residual: real, stlAnomaly: int,
    score: real, flag: int, kind: AnomalyType)

  function Abs(x: real): real
  {
    if x < 0.0 then -x else x
  }

  /** A forest fit reports one score and one label per feature row. */
  ghost predicate RowAligned(forest: seq<Feature> -> ForestOutput)
  {
    forall x :: |forest(x).scores| == |x| && |forest(x).labels| == |x|
  }

  // ---------------------------------------------------------------------
  // Column values
  // ---------------------------------------------------------------------

  /** The stl_anomaly column: 1 where the residual lies outside
      [-threshold, threshold], 0 elsewhere, and 0 everywhere when the fit
      failed. */
  function StlColumn(stl: StlOutcome, threshold: real, n: nat): (c: seq<int>)
    requires stl.Decomposed? ==> |stl.resid| == n
    ensures |c| == n
    ensures forall i :: 0 <= i < n ==> c[i] == 0 || c[i] == 1
    ensures forall i :: 0 <= i < n ==>
      (c[i] == 1 <==> stl.Decomposed? && (stl.resid[i] > threshold || stl.resid[i] < -threshold))
    ensures stl.StlFailed? ==> forall i :: 0 <= i < n ==> c[i] == 0
  {
    match stl
    case StlFailed => seq(n, _ => 0)
    case Decomposed(resid) =>
      seq(n, i requires 0 <= i < n => if Abs(resid[i]) > threshold then 1 else 0)
  }

  /** The direction tag of one row: Spike for a forest-flagged row with a
      positive residual, Drop for one with a negative residual, otherwise
      none. */
  function Classify(flag: int, residual: real): (t: AnomalyType)
    ensures t == Spike <==> flag == 1 && residual > 0.0
    ensures t == Drop <==> flag == 1 && residual < 0.0
    ensures t == Untyped <==> flag != 1 || residual == 0.0
  {
    if flag == 1 && residual < 0.0 then Drop
    else if flag == 1 && residual > 0.0 then Spike
    else Untyped
  }

  function DayColumn(data: seq<DailyGrid.DayTotal>): (c: seq<int>)
    ensures |c| == |data| && forall i :: 0 <= i < |data| ==> c[i] == data[i].day
  {
    seq(|data|, i requires 0 <= i < |data| => data[i].day)
  }

  function SalesColumn(data: seq<DailyGrid.DayTotal>): (c: seq<real>)
    ensures |c| == |data| && forall i :: 0 <= i < |data| ==> c[i] == data[i].total
  {
    seq(|data|, i requires 0 <= i < |data| => data[i].total)
  }

  /** The feature matrix data[['y', 'residuals']]. */
  function Features(y: seq<real>, resid: seq<real>): (x: seq<Feature>)
    requires |resid| == |y|
    ensures |x| == |y|
    ensures forall i :: 0 <= i < |y| ==> x[i].y == y[i] && x[i].residual == resid[i]
  {
    seq(|y|, i requires 0 <= i < |y| => Feature(y[i], resid[i]))
  }

  // ---------------------------------------------------------------------
  // The working frame of detect_anomalies
  // ---------------------------------------------------------------------

  /** The copied frame that detect_anomalies adds its columns to. A column
      that has not been added yet is empty (residuals: None). */
  class AnomalyFrame {
    var ds: seq<int>
    var y: seq<real>
    var residuals: Option<seq<real>>
    var stlAnomaly: seq<int>
    var iforestScore: seq<real>
    var iforestAnomaly: seq<int>
    var anomalyType: seq<AnomalyType>

    /** Every column has been added and has one entry per day. */
    predicate Complete()
      reads this
    {
      |y| == |ds| && residuals.Some? && |residuals.value| == |ds| &&
      |stlAnomaly| == |ds| && |iforestScore| == |ds| &&
      |iforestAnomaly| == |ds| && |anomalyType| == |ds|
    }

    /** data.copy().set_index('ds'): a fresh frame with the caller's days and
        totals in the caller's order. */
    constructor CopyOf(data: seq<DailyGrid.DayTotal>)
      ensures ds == DayColumn(data) && y == SalesColumn(data)
      ensures residuals == None && stlAnomaly == [] && iforestScore == []
      ensures iforestAnomaly == [] && anomalyType == []
    {
      ds := DayColumn(data);
      y := SalesColumn(data);
      residuals := None;
      stlAnomaly := [];
      iforestScore := [];
      iforestAnomaly := [];
      anomalyType := [];
    }

    /** The STL step: on success the residual column and its 3-sigma flags
        are added, on failure only an all-zero flag column. */
    method AttachStl(stl: StlOutcome, threshold: real)
      requires stl.Decomposed? ==> |stl.resid| == |ds|
      modifies this
      ensures ds == old(ds) && y == old(y) && iforestScore == old(iforestScore)
      ensures iforestAnomaly == old(iforestAnomaly) && anomalyType == old(anomalyType)
      ensures residuals == (if stl.Decomposed? then Some(stl.resid) else old(residuals))
      ensures stlAnomaly == StlColumn(stl, threshold, |ds|)
    {
      match stl
      case Decomposed(resid) =>
        residuals := Some(resid);
        stlAnomaly := StlColumn(stl, threshold, |ds|);
      case StlFailed =>
        stlAnomaly := StlColumn(stl, threshold, |ds|);
    }

    /** The isolation-forest step: fit on [y, residual] and add the scores and
        labels as columns. */
    method AttachForest(forest: seq<Feature> -> ForestOutput)
      requires |y| == |ds| && residuals.Some? && |residuals.value| == |ds|
      requires RowAligned(forest)
      modifies this
      ensures ds == old(ds) && y == old(y) && residuals == old(residuals)
      ensures stlAnomaly == old(stlAnomaly) && anomalyType == old(anomalyType)
      ensures iforestScore == forest(Features(y, residuals.value)).scores
      ensures iforestAnomaly == forest(Features(y, residuals.value)).labels
      ensures |iforestScore| == |ds| && |iforestAnomaly| == |ds|
    {
      var fit := forest(Features(y, residuals.value));
      iforestScore := fit.scores;
      iforestAnomaly := fit.labels;
    }

    /** The direction step: the column starts untyped, then flagged rows with
        a positive residual are set to Spike and flagged rows with a negative
        residual to Drop. */
    method TagDirections()
      requires residuals.Some? && |residuals.value| == |ds| && |iforestAnomaly| == |ds|
      modifies this
      ensures ds == old(ds) && y == old(y) && residuals == old(residuals)
      ensures stlAnomaly == old(stlAnomaly) && iforestScore == old(iforestScore)
      ensures iforestAnomaly == old(iforestAnomaly)
      ensures |anomalyType| == |ds|
      ensures forall i :: 0 <= i < |ds| ==>
        anomalyType[i] == Classify(iforestAnomaly[i], residuals.value[i])
    {
      var n, flag, resid := |ds|, iforestAnomaly, residuals.value;
      anomalyType := seq(n, _ => Untyped);
      var before := anomalyType;
      anomalyType := seq(n, i requires 0 <= i < n =>
        if flag[i] == 1 && resid[i] > 0.0 then Spike else before[i]);
      before := anomalyType;
      anomalyType := seq(n, i requires 0 <= i < n =>
        if flag[i] == 1 && resid[i] < 0.0 then Drop else before[i]);
    }

    /** The finished table, one row per day. */
    function Rows(): (rows: seq<AnomalyRow>)
      reads this
      requires Complete()
      ensures |rows| == |ds|
      ensures forall i :: 0 <= i < |ds| ==>
        rows[i] == AnomalyRow(ds[i], y[i], residuals.value[i], stlAnomaly[i],
                              iforestScore[i], iforestAnomaly[i], anomalyType[i])
    {
      var d, v, res, stl, score, flag, kind :=
        ds, y, residuals.value, stlAnomaly, iforestScore, iforestAnomaly, anomalyType;
      seq(|d|, i requires 0 <= i < |d| =>
        AnomalyRow(d[i], v[i], res[i], stl[i], score[i], flag[i], kind[i]))
    }
  }

  /** detect_anomalies: works on a fresh copy of the daily table and adds the
      residual, STL flag, forest score, forest label and direction columns;
      when STL fails the residual column is never added, and reading it
      raises. */
  method DetectAnomalies(data: seq<DailyGrid.DayTotal>, stl: StlOutcome, threshold: real,
                         forest: seq<Feature> -> ForestOutput)
    returns (r: Result<AnomalyFrame, DetectError>)
    requires stl.Decomposed? ==> |stl.resid| == |data|
    requires RowAligned(forest)
    ensures r.Failure? <==> stl.StlFailed?
    ensures r.Failure? ==> r.error == MissingResiduals
    ensures r.Success? ==>
      var f := r.value;
      fresh(f) && f.Complete() &&
      f.ds == DayColumn(data) && f.y == SalesColumn(data) &&
      f.residuals == Some(stl.resid) &&
      f.stlAnomaly == StlColumn(stl, threshold, |data|) &&
      f.iforestScore == forest(Features(SalesColumn(data), stl.resid)).scores &&
      f.iforestAnomaly == forest(Features(SalesColumn(data), stl.resid)).labels &&
      forall i :: 0 <= i < |data| ==> f.anomalyType[i] == Classify(f.iforestAnomaly[i], stl.resid[i])
  {
    var frame := new AnomalyFrame.CopyOf(data);
    frame.AttachStl(stl, threshold);
    if frame.residuals.None? {
      return Failure(MissingResiduals);
    }
    frame.AttachForest(forest);
    frame.TagDirections();
    return Success(frame);
  }

  // ---------------------------------------------------------------------
  // Views over the finished table
  // ---------------------------------------------------------------------

  /** Every row carries the direction its flag and residual call for. */
  predicate Classified(rows: seq<AnomalyRow>)
  {
    forall i :: 0 <= i < |rows| ==> rows[i].kind == Classify(rows[i].flag, rows[i].residual)
  }

  lemma DetectedRowsClassified(f: AnomalyFrame)
    requires f.Complete()
    requires forall i :: 0 <= i < |f.ds| ==>
      f.anomalyType[i] == Classify(f.iforestAnomaly[i], f.residuals.value[i])
    ensures Classified(f.Rows())
  {
  }

  /** The rows the forest labels as anomalies (label 1), in table order. */
  function Flagged(rows: seq<AnomalyRow>): (r: seq<AnomalyRow>)
    ensures forall x :: x in r ==> x.flag == 1
    ensures forall x :: multiset(r)[x] == if x.flag == 1 then multiset(rows)[x] else 0
  {
    if rows == [] then []
    else
      assert rows == [rows[0]] + rows[1..];
      (if rows[0].flag == 1 then [rows[0]] else []) + Flagged(rows[1..])
  }

  /** The plot markers of one direction: flagged rows tagged with kind. */
  function Markers(rows: seq<AnomalyRow>, kind: AnomalyType): (r: seq<AnomalyRow>)
    ensures forall x :: x in r <==> x in rows && x.flag == 1 && x.kind == kind
  {
    if rows == [] then []
    else (if rows[0].flag == 1 && rows[0].kind == kind then [rows[0]] else []) + Markers(rows[1..], kind)
  }

  /** In a classified table every Spike marker has a positive residual, every
      Drop marker a negative one, no row is both, and every flagged row with
      a non-zero residual is one of the two. */
  lemma MarkersSplitAnomalies(rows: seq<AnomalyRow>, x: AnomalyRow)
    requires Classified(rows)
    requires x in rows
    ensures x in Markers(rows, Spike) ==> x.residual > 0.0
    ensures x in Markers(rows, Drop) ==> x.residual < 0.0
    ensures !(x in Markers(rows, Spike) && x in Markers(rows, Drop))
    ensures x.flag == 1 && x.residual != 0.0 <==> x in Markers(rows, Spike) || x in Markers(rows, Drop)
  {
    var i :| 0 <= i < |rows| && rows[i] == x;
  }

  // ---------------------------------------------------------------------
  // The top-anomaly list (sort_values by score, descending, then head(10))
  // ---------------------------------------------------------------------

  predicate Descending(s: seq<AnomalyRow>)
  {
    forall i, j :: 0 <= i < j < |s| ==> s[i].score >= s[j].score
  }

  lemma DescendingCons(h: AnomalyRow, t: seq<AnomalyRow>)
    requires Descending(t)
    requires forall y :: y in t ==> y.score <= h.score
    ensures Descending([h] + t)
  {
    var r := [h] + t;
    forall i, j | 0 <= i < j < |r| ensures r[i].score >= r[j].score {
      assert r[j] == t[j - 1] && r[j] in t;
      if i > 0 { assert r[i] == t[i - 1]; }
    }
  }

  function InsertByScore(x: AnomalyRow, s: seq<AnomalyRow>): (r: seq<AnomalyRow>)
    requires Descending(s)
    ensures Descending(r)
    ensures multiset(r) == multiset(s) + multiset{x}
  {
    if s == [] || x.score >= s[0].score then
      assert forall y :: y in s ==> y.score <= s[0].score;
      DescendingCons(x, s);
      [x] + s
    else
      var rest := InsertByScore(x, s[1..]);
      assert s == [s[0]] + s[1..];
      assert forall y :: y in rest ==> y in multiset(s[1..]) + multiset{x};
      assert forall y :: y in s[1..] ==> y.score <= s[0].score;
      DescendingCons(s[0], rest);
      [s[0]] + rest
  }

  /** The rows ordered by forest score from highest to lowest. */
  function SortByScore(rows: seq<AnomalyRow>): (r: seq<AnomalyRow>)
    ensures Descending(r)
    ensures multiset(r) == multiset(rows)
  {
    if rows == [] then []
    else
      assert rows == [rows[0]] + rows[1..];
      InsertByScore(rows[0], SortByScore(rows[1..]))
  }

  const TopCount: nat := 10

  /** The top-anomaly table: the flagged rows, highest score first, at most
      ten of them; no flagged row left out scores above a row shown. */
  function TopAnomalies(rows: seq<AnomalyRow>): (r: seq<AnomalyRow>)
    ensures |r| == if |Flagged(rows)| < TopCount then |Flagged(rows)| else TopCount
    ensures forall x :: x in r ==> x in rows && x.flag == 1
    ensures Descending(r)
    ensures multiset(r) <= multiset(Flagged(rows))
    ensures forall x, i :: x in multiset(Flagged(rows)) - multiset(r) && 0 <= i < |r| ==> x.score <= r[i].score
  {
    var sorted := SortByScore(Flagged(rows));
    var k := if |sorted| < TopCount then |sorted| else TopCount;
    TakeOfDescending(sorted, k);
    sorted[..k]
  }

  lemma TakeOfDescending(s: seq<AnomalyRow>, k: nat)
    requires Descending(s) && k <= |s|
    ensures Descending(s[..k])
    ensures multiset(s[..k]) <= multiset(s)
    ensures forall x, i :: x in multiset(s) - multiset(s[..k]) && 0 <= i < k ==> x.score <= s[i].score
  {
    assert s == s[..k] + s[k..];
    assert multiset(s) == multiset(s[..k]) + multiset(s[k..]);
    forall x, i | x in multiset(s) - multiset(s[..k]) && 0 <= i < k ensures x.score <= s[i].score {
      assert x in multiset(s[k..]);
      assert x in s[k..];
      var j :| k <= j < |s| && s[j] == x;
    }
  }
}
