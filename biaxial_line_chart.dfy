/** The biaxial line chart of the emissions dashboard: whether it draws the series
    or the "No transactions were made" message, and its tooltip. */
module BiaxialLineChart {
  import opened Wrappers

  /** One point of the series: a time bucket with its transaction count and emissions. */
  datatype TransactionGroupSummary = TransactionGroupSummary(
    blockStartDate: string,
    numTransactions: int,
    co2Emissions: real)

  // ----- containsData -----

  /** The component's `reduce`: a left fold that adds each point's emissions to an
      accumulator starting at `acc`. */
  function ReduceCo2(acc: real, data: seq<TransactionGroupSummary>): (sum: real)
    decreases |data|
  {
    if data == [] then acc else ReduceCo2(acc + data[0].co2Emissions, data[1..])
  }

  /** The total emissions of a series, summed from the right. */
  function TotalCo2(data: seq<TransactionGroupSummary>): (total: real)
  {
    if data == [] then 0.0 else data[0].co2Emissions + TotalCo2(data[1..])
  }

  /** The fold adds the total emissions of the series to its start value. */
  lemma {:induction false} ReduceIsTotal(acc: real, data: seq<TransactionGroupSummary>)
    ensures ReduceCo2(acc, data) == acc + TotalCo2(data)
    decreases |data|
  {
    if data != [] {
      ReduceIsTotal(acc + data[0].co2Emissions, data[1..]);
    }
  }

  predicate ContainsData(data: seq<TransactionGroupSummary>)
  {
    ReduceCo2(0.0, data) > 0.0
  }

  /** The two things the component can render. */
  datatype ChartBranch = LineChartBranch(series: seq<TransactionGroupSummary>) | NoTransactionsBranch

  function Chart(data: seq<TransactionGroupSummary>): (branch: ChartBranch)
    ensures branch.LineChartBranch? <==> TotalCo2(data) > 0.0
    ensures branch.LineChartBranch? ==> branch.series == data
  {
    ReduceIsTotal(0.0, data);
    if ContainsData(data) then LineChartBranch(data) else NoTransactionsBranch
  }

  lemma ChartEmptySeries()
    ensures Chart([]) == NoTransactionsBranch
  {
  }

  /** A series whose emissions are all zero shows the message, whatever its transaction counts. */
  lemma {:induction false} ChartAllZero(data: seq<TransactionGroupSummary>)
    requires forall i :: 0 <= i < |data| ==> data[i].co2Emissions == 0.0
    ensures TotalCo2(data) == 0.0
    ensures Chart(data) == NoTransactionsBranch
  {
    if data != [] {
      ChartAllZero(data[1..]);
    }
  }

  /** Which branch is shown depends on the emissions of the points and on nothing else. */
  lemma {:induction false} ChartDependsOnlyOnCo2(data1: seq<TransactionGroupSummary>, data2: seq<TransactionGroupSummary>)
    requires |data1| == |data2|
    requires forall i :: 0 <= i < |data1| ==> data1[i].co2Emissions == data2[i].co2Emissions
    ensures TotalCo2(data1) == TotalCo2(data2)
    ensures Chart(data1).LineChartBranch? == Chart(data2).LineChartBranch?
  {
    if data1 != [] {
      ChartDependsOnlyOnCo2(data1[1..], data2[1..]);
    }
  }

  /** When no point has negative emissions, the chart is drawn exactly when some point
      has positive emissions. */
  lemma {:induction false} ChartNonNegative(data: seq<TransactionGroupSummary>)
    requires forall i :: 0 <= i < |data| ==> data[i].co2Emissions >= 0.0
    ensures TotalCo2(data) >= 0.0
    ensures Chart(data).LineChartBranch? <==> exists i :: 0 <= i < |data| && data[i].co2Emissions > 0.0
  {
    if data != [] {
      ChartNonNegative(data[1..]);
      if exists i :: 0 <= i < |data[1..]| && data[1..][i].co2Emissions > 0.0 {
        var i :| 0 <= i < |data[1..]| && data[1..][i].co2Emissions > 0.0;
        assert data[i + 1].co2Emissions > 0.0;
      }
      if exists i :: 0 <= i < |data| && data[i].co2Emissions > 0.0 {
        var i :| 0 <= i < |data| && data[i].co2Emissions > 0.0;
        if i > 0 {
          assert data[1..][i - 1].co2Emissions > 0.0;
        }
      }
    }
  }

  // ----- CustomTooltip -----

  /** One entry of the tooltip payload handed over by the charting library. */
  datatype PayloadEntry = PayloadEntry(value: real)

  /** What rendering the tooltip produces: nothing, the two lines of text, or an exception
      (reading `.value` of a missing entry throws a TypeError). */
  datatype TooltipResult =
    | Hidden
    | Shown(labelText: string, transactionVolume: real, co2Emissions: real)
    | Throws

  /** The tooltip as the component writes it: the guard asks for a non-empty payload,
      then entries 0 and 1 are read. */
  function CustomTooltipAsWritten(active: bool, payload: Option<seq<PayloadEntry>>, labelText: string): (r: TooltipResult)
    ensures r.Hidden? <==> !active || payload.None? || |payload.value| == 0
  {
    if active && payload.Some? && |payload.value| != 0 then
      if |payload.value| >= 2 then Shown(labelText, payload.value[0].value, payload.value[1].value)
      else Throws
    else Hidden
  }

  /** Any single payload entry passes the guard and the read of entry 1 throws. */
  lemma CustomTooltipAsWrittenThrows(e: PayloadEntry, labelText: string)
    ensures CustomTooltipAsWritten(true, Some([e]), labelText) == Throws
  {
  }

  /** The tooltip with its guard asking for both entries it reads. */
  function CustomTooltip(active: bool, payload: Option<seq<PayloadEntry>>, labelText: string): (r: TooltipResult)
    ensures !r.Throws?
    ensures r.Shown? <==> active && payload.Some? && |payload.value| >= 2
    ensures r.Shown? ==> r.labelText == labelText && r.transactionVolume == payload.value[0].value
                         && r.co2Emissions == payload.value[1].value
  {
    if active && payload.Some? && |payload.value| >= 2 then
      Shown(labelText, payload.value[0].value, payload.value[1].value)
    else Hidden
  }

  /** The corrected tooltip differs from the written one only where the written one throws. */
  lemma CustomTooltipAgrees(active: bool, payload: Option<seq<PayloadEntry>>, labelText: string)
    ensures CustomTooltipAsWritten(active, payload, labelText) == CustomTooltip(active, payload, labelText)
         || (CustomTooltipAsWritten(active, payload, labelText) == Throws && CustomTooltip(active, payload, labelText) == Hidden)
  {
  }
}
