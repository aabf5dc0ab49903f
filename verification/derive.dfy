/**
 * The datasets `drawHistogram`, `drawScatterChart` and `drawAltairScatterPlot`
 * derive from the loaded rows before handing them to the renderer.
 */
module Derive {
  import opened Values
  import opened Sequences
  import opened Format

  predicate IsNumber(v: Number)
  {
    v.Num?
  }

  // ---------------------------------------------------------------------
  // Histogram values
  // ---------------------------------------------------------------------

  /** `globalData.map(d => +d[col]).filter(d => !isNaN(d))` */
  function HistogramValues(globalData: seq<Row>, q: string): (values: seq<Number>)
    ensures |values| <= |globalData|
    ensures forall k :: 0 <= k < |values| ==>
              (values[k].Num? &&
               exists i :: 0 <= i < |globalData| && NumberAt(globalData[i], TotalColumn(q)) == values[k])
    ensures forall i :: 0 <= i < |globalData| && NumberAt(globalData[i], TotalColumn(q)).Num? ==>
              NumberAt(globalData[i], TotalColumn(q)) in values
  {
    var col := TotalColumn(q);
    var mapped := Map(globalData, d => NumberAt(d, col));
    assert forall i :: 0 <= i < |globalData| ==> mapped[i] == NumberAt(globalData[i], col);
    Filter(mapped, IsNumber)
  }

  /**
   * The histogram values of consecutive blocks of rows are those of each block
   * in turn: values keep the order of their rows.
   */
  lemma HistogramValuesAppend(a: seq<Row>, b: seq<Row>, q: string)
    ensures HistogramValues(a + b, q) == HistogramValues(a, q) + HistogramValues(b, q)
  {
    var f := d => NumberAt(d, TotalColumn(q));
    MapAppend(a, b, f);
    FilterAppend(Map(a, f), Map(b, f), IsNumber);
  }

  /** A single row contributes its parsed total when that is a number, and nothing otherwise. */
  lemma HistogramValuesOne(d: Row, q: string)
    ensures HistogramValues([d], q) ==
      if NumberAt(d, TotalColumn(q)).Num? then [NumberAt(d, TotalColumn(q))] else []
  {
    var f := d => NumberAt(d, TotalColumn(q));
    assert Map([d], f) == [f(d)];
    FilterOne(f(d), IsNumber);
  }

  /**
   * A total written with a thousands separator, as `formatNumber` prints one
   * from 1000 up, is NaN and its row drops out of the histogram.
   */
  lemma {:induction false} GroupedTotalDropped(d: Row, q: string, n: int)
    requires n >= 1000
    requires TotalColumn(q) in d && d[TotalColumn(q)] == FormatInt(n)
    ensures HistogramValues([d], q) == []
  {
    GroupedIsNaN(n);
    HistogramValuesOne(d, q);
  }

  // ---------------------------------------------------------------------
  // Scatter points
  // ---------------------------------------------------------------------

  /** `{school, dep, ind, total}` */
  datatype ScatterPoint = ScatterPoint(school: Cell, dep: Number, ind: Number, total: Number)

  function ScatterPointOf(d: Row, q: string): ScatterPoint
  {
    ScatterPoint(Get(d, "School"), NumberAt(d, "Dependent Students_" + q),
                 NumberAt(d, "Independent Students_" + q), NumberAt(d, TotalColumn(q)))
  }

  /** `!isNaN(d.dep) && !isNaN(d.ind)`; the total is not looked at. */
  predicate Plottable(p: ScatterPoint)
  {
    p.dep.Num? && p.ind.Num?
  }

  /** `globalData.map(d => ({school, dep, ind, total})).filter(plottable)` */
  function ScatterData(globalData: seq<Row>, q: string): (data: seq<ScatterPoint>)
    ensures |data| <= |globalData|
    ensures forall k :: 0 <= k < |data| ==>
              (data[k].dep.Num? && data[k].ind.Num? &&
               exists i :: 0 <= i < |globalData| && data[k] == ScatterPointOf(globalData[i], q))
  {
    var mapped := Map(globalData, d => ScatterPointOf(d, q));
    assert forall i :: 0 <= i < |globalData| ==> mapped[i] == ScatterPointOf(globalData[i], q);
    Filter(mapped, Plottable)
  }

  /** Scatter points keep the order of their rows. */
  lemma ScatterDataAppend(a: seq<Row>, b: seq<Row>, q: string)
    ensures ScatterData(a + b, q) == ScatterData(a, q) + ScatterData(b, q)
  {
    var f := d => ScatterPointOf(d, q);
    MapAppend(a, b, f);
    FilterAppend(Map(a, f), Map(b, f), Plottable);
  }

  /**
   * A row yields a point, with its school copied, exactly when both its
   * dependent and its independent count parse; the total may be NaN.
   */
  lemma ScatterDataOne(d: Row, q: string)
    ensures ScatterData([d], q) ==
      if NumberAt(d, "Dependent Students_" + q).Num? && NumberAt(d, "Independent Students_" + q).Num?
      then [ScatterPoint(Get(d, "School"), NumberAt(d, "Dependent Students_" + q),
                         NumberAt(d, "Independent Students_" + q), NumberAt(d, TotalColumn(q)))]
      else []
  {
    var f := d => ScatterPointOf(d, q);
    assert Map([d], f) == [f(d)];
    FilterOne(f(d), Plottable);
  }

  /** A row without a total column still makes a point, with a NaN total. */
  lemma {:induction false} ScatterKeepsNaNTotal(d: Row, q: string, dep: nat, ind: nat)
    requires "Dependent Students_" + q in d && d["Dependent Students_" + q] == IntToString(dep)
    requires "Independent Students_" + q in d && d["Independent Students_" + q] == IntToString(ind)
    requires TotalColumn(q) !in d
    ensures ScatterData([d], q) == [ScatterPoint(Get(d, "School"), Num(dep), Num(ind), NaN)]
  {
    ParseIntToString(dep);
    ParseIntToString(ind);
    ScatterDataOne(d, q);
  }

  // ---------------------------------------------------------------------
  // Growth records for the Vega-Lite plot
  // ---------------------------------------------------------------------

  /**
   * `{School, Q1, ..., Q5}`, and later the `Growth` field the `forEach` adds
   * (`None` while it is not yet set).
   */
  datatype GrowthRecord = GrowthRecord(
    school: Cell, q1: Number, q2: Number, q3: Number, q4: Number, q5: Number,
    growth: Option<Number>)

  function GrowthRecordOf(d: Row): GrowthRecord
  {
    GrowthRecord(Get(d, "School"), NumberAt(d, TotalColumn("Q1")), NumberAt(d, TotalColumn("Q2")),
                 NumberAt(d, TotalColumn("Q3")), NumberAt(d, TotalColumn("Q4")),
                 NumberAt(d, TotalColumn("Q5")), None)
  }

  /** `!isNaN(d.Q1) && !isNaN(d.Q5)` */
  predicate HasEnds(r: GrowthRecord)
  {
    r.q1.Num? && r.q5.Num?
  }

  /** The records before the `forEach`: one per row whose Q1 and Q5 totals parse. */
  function AltairRecords(globalData: seq<Row>): (records: seq<GrowthRecord>)
    ensures |records| <= |globalData|
    ensures forall k :: 0 <= k < |records| ==>
              (HasEnds(records[k]) && records[k].growth == None &&
               exists i :: 0 <= i < |globalData| && records[k] == GrowthRecordOf(globalData[i]))
  {
    var mapped := Map(globalData, GrowthRecordOf);
    assert forall i :: 0 <= i < |globalData| ==> mapped[i] == GrowthRecordOf(globalData[i]);
    Filter(mapped, HasEnds)
  }

  /** Growth records keep the order of their rows. */
  lemma AltairRecordsAppend(a: seq<Row>, b: seq<Row>)
    ensures AltairRecords(a + b) == AltairRecords(a) + AltairRecords(b)
  {
    MapAppend(a, b, GrowthRecordOf);
    FilterAppend(Map(a, GrowthRecordOf), Map(b, GrowthRecordOf), HasEnds);
  }

  /** A row yields a record exactly when its Q1 and Q5 totals both parse. */
  lemma AltairRecordsOne(d: Row)
    ensures AltairRecords([d]) ==
      if NumberAt(d, TotalColumn("Q1")).Num? && NumberAt(d, TotalColumn("Q5")).Num?
      then [GrowthRecordOf(d)] else []
  {
    assert Map([d], GrowthRecordOf) == [GrowthRecordOf(d)];
    FilterOne(GrowthRecordOf(d), HasEnds);
  }

  /** JavaScript subtraction on the modelled numbers: NaN on either side gives NaN. */
  function Minus(a: Number, b: Number): (d: Number)
    ensures d.Num? <==> a.Num? && b.Num?
    ensures d.Num? ==> b.value + d.value == a.value
  {
    if a.NaN? || b.NaN? then NaN else Num(a.value - b.value)
  }

  /** On a record with numeric Q1 and Q5 the subtraction is exact and touches only `Growth`. */
  lemma GrowthIsDifference(r: GrowthRecord, updated: GrowthRecord)
    requires HasEnds(r) && r.growth == None
    requires updated == r.(growth := Some(Minus(r.q5, r.q1)))
    ensures HasEnds(updated) && updated.growth == Some(Num(updated.q5.value - updated.q1.value))
    ensures updated.(growth := None) == r
  {
  }

  /** `altairData.forEach(d => { d.Growth = d.Q5 - d.Q1; })`, in place. */
  method AddGrowth(records: array<GrowthRecord>)
    modifies records
    ensures forall k :: 0 <= k < records.Length ==>
              records[k] == old(records[k]).(growth := Some(Minus(old(records[k]).q5, old(records[k]).q1)))
  {
    for k := 0 to records.Length
      invariant forall j :: 0 <= j < k ==>
                  records[j] == old(records[j]).(growth := Some(Minus(old(records[j]).q5, old(records[j]).q1)))
      invariant forall j :: k <= j < records.Length ==> records[j] == old(records[j])
    {
      records[k] := records[k].(growth := Some(Minus(records[k].q5, records[k].q1)));
    }
  }

  /**
   * The data handed to the Vega-Lite plot: the records of the rows whose Q1
   * and Q5 totals parse, in row order, each with `Growth = Q5 - Q1`.
   */
  method AltairData(globalData: seq<Row>) returns (altairData: seq<GrowthRecord>)
    ensures |altairData| == |AltairRecords(globalData)|
    ensures forall k :: 0 <= k < |altairData| ==>
              HasEnds(altairData[k]) &&
              altairData[k].growth == Some(Num(altairData[k].q5.value - altairData[k].q1.value)) &&
              altairData[k].(growth := None) == AltairRecords(globalData)[k]
  {
    altairData := GrowthOnArray(AltairRecords(globalData));
  }

  /**
   * Runs the `forEach` on an array holding `records`, each with numeric Q1 and
   * Q5 and no `Growth` yet, and returns the updated records.
   */
  method GrowthOnArray(records: seq<GrowthRecord>) returns (updated: seq<GrowthRecord>)
    requires forall k :: 0 <= k < |records| ==> HasEnds(records[k]) && records[k].growth == None
    ensures |updated| == |records|
    ensures forall k :: 0 <= k < |updated| ==>
              HasEnds(updated[k]) &&
              updated[k].growth == Some(Num(updated[k].q5.value - updated[k].q1.value)) &&
              updated[k].(growth := None) == records[k]
  {
    var a := new GrowthRecord[|records|](i requires 0 <= i < |records| => records[i]);
    assert a[..] == records;
    AddGrowth(a);
    updated := a[..];
    forall k | 0 <= k < |updated| {
      GrowthIsDifference(records[k], updated[k]);
    }
  }
}
