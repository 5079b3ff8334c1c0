/** The redistribution steps of `PerThreadTemporary::finalize`, for the values of one
  reconstruction and of one flow graph: how they end, where every part of a value goes,
  and that nothing is created or lost. */
module FlowRedistribution {
  import opened Common
  import opened Paths
  import opened RealSums
  import opened ExteriorFactors
  import opened Redistribution
  import opened Rescaling
  import opened Attribution
  import FlowGraph
  import InteriorSpec
  import InteriorCounts

  /** Values attributed to one reconstruction; `callers` are those of its siblings. */
  datatype ReconstInput = ReconstInput(handler: Metric -> Handling, ts: seq<Template>, r: Reconstruction,
                                       siblings: set<Scope>, callers: InteriorCounts.Callers, input: Values)

  /** Values attributed to one flow graph, within one reconstruction group. */
  datatype FlowInput = FlowInput(handler: Metric -> Handling, ts: seq<Template>, rs: seq<Reconstruction>,
                                 siblings: set<Scope>, callers: InteriorCounts.Callers, input: Values)

  datatype FlowStatus = Redistributed | Stopped | NotANumber

  // ----- The metrics that count calls

  /** The metric for physical calls only, if the handler names one. */
  ghost function Phys(handler: Metric -> Handling): Option<Metric> {
    if exists m: Metric :: Counts(handler, m, false) then
      var m: Metric :| Counts(handler, m, false);
      Some(m)
    else None
  }

  /** The metric for logical calls. */
  ghost function Logical(handler: Metric -> Handling): Option<Metric> {
    if exists m: Metric :: handler(m).exteriorLogical then
      var m: Metric :| handler(m).exteriorLogical;
      Some(m)
    else None
  }

  /** The metric for logical calls, where it may stand in for physical ones. */
  ghost function StandIn(handler: Metric -> Handling): Option<Metric> {
    var l := Logical(handler);
    if l.Some? && handler(l.value).exterior then l else None
  }

  /** The documented limit on handlers: one metric per role. */
  ghost predicate OneEach(handler: Metric -> Handling) {
    OnePerRole(handler, Phys(handler), Logical(handler))
  }

  lemma OneEachIff(handler: Metric -> Handling)
    ensures OneEach(handler) <==> exists p, l :: OnePerRole(handler, p, l)
  {
    if p, l :| OnePerRole(handler, p, l) {
      assert forall m: Metric :: Counts(handler, m, false) <==> p == Some(m);
    }
  }

  lemma OneEachHandles(handler: Metric -> Handling)
    requires OneEach(handler)
    ensures Handles(handler, Phys(handler), StandIn(handler))
  {
  }

  /** Only one metric counts calls, of whichever kind. */
  ghost predicate OneCallMetric(handler: Metric -> Handling) {
    OneEach(handler) && (Phys(handler).None? || Logical(handler).None?)
  }

  // ----- How a flow graph's step ends

  /** A frozen graph with its instantiated reconstructions. */
  ghost predicate FlowOk(x: FlowInput) {
    && OneEach(x.handler) && Sorted(PathsOf(x.ts)) && SuffixFree(PathsOf(x.ts))
    && x.siblings == FlowGraph.Calls(x.ts) && InteriorCounts.NoNegative(x.callers)
    && AllInstantiated(x.ts, x.rs)
  }

  /** The metric exterior factors are computed from. */
  ghost function Chosen(x: FlowInput, data: Data): Option<Metric>
    requires AllInstantiated(x.ts, x.rs)
  {
    Pick(Phys(x.handler), StandIn(x.handler), Seen(data, AllVisits(x.ts, x.rs)))
  }

  /** The denominator for an entry. */
  ghost function TotalFor(x: FlowInput, data: Data, s: Scope): real
    requires AllInstantiated(x.ts, x.rs)
  {
    Tally(Phys(x.handler), StandIn(x.handler), data, AllVisits(x.ts, x.rs), s)
  }

  /** Some entry has the metric but its total is zero. */
  ghost predicate ZeroTotal(x: FlowInput, data: Data, e: Metric)
    requires AllInstantiated(x.ts, x.rs)
  {
    exists k, i :: ZeroTotalAt(x, data, e, k, i)
  }

  ghost predicate ZeroTotalAt(x: FlowInput, data: Data, e: Metric, k: int, i: int)
    requires AllInstantiated(x.ts, x.rs)
  {
    && 0 <= k < |x.rs| && 0 <= i < |x.ts| && e in KeysAt(data, x.rs[k].entries[x.ts[i].entry])
    && TotalFor(x, data, x.ts[i].entry) == 0.0
  }

  ghost function RescaleEnd(x: FlowInput, sums: Data, k: nat): RescaleStatus
    requires AllInstantiated(x.ts, x.rs) && k < |x.rs|
  {
    RescaleResult(x.handler, sums, VisitsOf(x.rs[k]), Phys(x.handler), Logical(x.handler))
  }

  ghost function RescaleFor(x: FlowInput, sums: Data, k: nat, i: nat): Quotient
    requires AllInstantiated(x.ts, x.rs) && k < |x.rs| && i < |x.ts|
  {
    TemplateRescale(x.ts[i], x.rs[k], sums, Phys(x.handler), Logical(x.handler))
  }

  /** Rescaling stops for a reconstruction that has factors. */
  ghost predicate RescaleStops(x: FlowInput, data: Data, sums: Data, e: Metric)
    requires AllInstantiated(x.ts, x.rs)
  {
    exists k :: 0 <= k < |x.rs| && HasRow(data, x.ts, x.rs[k], e) && !RescaleEnd(x, sums, k).Done?
  }

  /** Rescaling divides by a count of zero for a reconstruction that has factors. */
  ghost predicate ZeroRescale(x: FlowInput, data: Data, sums: Data, e: Metric)
    requires AllInstantiated(x.ts, x.rs)
  {
    exists k, i :: ZeroRescaleAt(x, data, sums, e, k, i)
  }

  ghost predicate ZeroRescaleAt(x: FlowInput, data: Data, sums: Data, e: Metric, k: int, i: int)
    requires AllInstantiated(x.ts, x.rs)
  {
    0 <= k < |x.rs| && 0 <= i < |x.ts| && HasRow(data, x.ts, x.rs[k], e) && RescaleFor(x, sums, k, i).NaN?
  }

  /** The interior factors cannot be computed from the siblings' values. */
  ghost predicate InteriorStops(x: FlowInput, data: Data, e: Metric)
    requires AllInstantiated(x.ts, x.rs)
  {
    !InteriorCounts.InteriorResult(x.handler, x.siblings, x.callers, PathsOf(x.ts), MaskOf(x, data, e)).Computed?
  }

  /** Flow graphs without reconstructions are skipped. */
  ghost function FlowOutcome(x: FlowInput, data: Data, sums: Data): FlowStatus
    requires AllInstantiated(x.ts, x.rs)
  {
    var e := Chosen(x, data);
    if x.rs == [] then Redistributed
    else if e.None? || InteriorStops(x, data, e.value) || RescaleStops(x, data, sums, e.value) then Stopped
    else if ZeroTotal(x, data, e.value) || ZeroRescale(x, data, sums, e.value) then NotANumber
    else Redistributed
  }

  // ----- Where a flow graph's value goes

  ghost function RowOf(x: FlowInput, data: Data, e: Metric, k: nat): (row: seq<Quotient>)
    requires AllInstantiated(x.ts, x.rs) && k < |x.rs|
    ensures |row| == |x.ts|
    ensures forall i :: 0 <= i < |x.ts| ==>
                          row[i] == Expected(data, x.rs[k], x.ts[i], e, TotalFor(x, data, x.ts[i].entry))
  {
    seq(|x.ts|, i requires 0 <= i < |x.ts| => Expected(data, x.rs[k], x.ts[i], e, TotalFor(x, data, x.ts[i].entry)))
  }

  /** The exterior factors. */
  ghost function RowsOf(x: FlowInput, data: Data, e: Metric): (rows: seq<seq<Quotient>>)
    requires AllInstantiated(x.ts, x.rs)
    ensures |rows| == |x.rs| && forall k :: 0 <= k < |x.rs| ==> rows[k] == RowOf(x, data, e, k)
  {
    seq(|x.rs|, k requires 0 <= k < |x.rs| => RowOf(x, data, e, k))
  }

  ghost function RescaleRow(x: FlowInput, data: Data, sums: Data, e: Metric, k: nat): (row: seq<Quotient>)
    requires AllInstantiated(x.ts, x.rs) && k < |x.rs|
    ensures |row| == |x.ts|
    ensures forall i :: 0 <= i < |x.ts| ==>
                          row[i] == if HasRow(data, x.ts, x.rs[k], e) then RescaleFor(x, sums, k, i) else Num(0.0)
  {
    seq(|x.ts|, i requires 0 <= i < |x.ts| =>
      if HasRow(data, x.ts, x.rs[k], e) then RescaleFor(x, sums, k, i) else Num(0.0))
  }

  ghost function RescaleRows(x: FlowInput, data: Data, sums: Data, e: Metric): (rows: seq<seq<Quotient>>)
    requires AllInstantiated(x.ts, x.rs)
    ensures |rows| == |x.rs| && forall k :: 0 <= k < |x.rs| ==> rows[k] == RescaleRow(x, data, sums, e, k)
  {
    seq(|x.rs|, k requires 0 <= k < |x.rs| => RescaleRow(x, data, sums, e, k))
  }

  ghost function MaskOf(x: FlowInput, data: Data, e: Metric): (mask: seq<bool>)
    requires AllInstantiated(x.ts, x.rs)
    ensures IsMask(data, x.ts, x.rs, e, mask)
  {
    seq(|x.ts|, i requires 0 <= i < |x.ts| => Entered(data, x.rs, x.ts[i], e))
  }

  /** The paths that are possible, and the rule that shares calls among them. */
  ghost function PathsFor(x: FlowInput, data: Data, e: Metric): InteriorSpec.Flow
    requires AllInstantiated(x.ts, x.rs)
  {
    InteriorCounts.FlowFor(x.handler, x.siblings, x.callers, PathsOf(x.ts), MaskOf(x, data, e))
  }

  /** The interior factors. */
  ghost function InnerOf(f: InteriorSpec.Flow): (inner: seq<real>)
    ensures InteriorSpec.AreFactors(f, inner)
  {
    seq(|f.paths|, i requires 0 <= i < |f.paths| => InteriorSpec.Factor(f, i))
  }

  lemma InnerIs(f: InteriorSpec.Flow, inner: seq<real>)
    requires InteriorSpec.AreFactors(f, inner)
    ensures inner == InnerOf(f)
  {
  }

  lemma ShapesFit(x: FlowInput, data: Data, sums: Data, e: Metric)
    requires AllInstantiated(x.ts, x.rs)
    ensures SameShape(x.ts, RowsOf(x, data, e), InnerOf(PathsFor(x, data, e)), RescaleRows(x, data, sums, e))
  {
  }

  /** The part of the value that goes to the final context of each template in each
    reconstruction: exterior times interior times rescaling factor. */
  ghost function SharesOf(x: FlowInput, data: Data, sums: Data): (ws: seq<seq<real>>)
    requires AllInstantiated(x.ts, x.rs)
    ensures Shaped(x.ts, x.rs, ws)
  {
    var e := if Chosen(x, data).Some? then Chosen(x, data).value else 0;
    ShapesFit(x, data, sums, e);
    Products(x.ts, RowsOf(x, data, e), InnerOf(PathsFor(x, data, e)), RescaleRows(x, data, sums, e))
  }

  /** What context c receives of metric m. */
  ghost function FlowOut(x: FlowInput, data: Data, sums: Data, c: Ctx, m: Metric): real
    requires AllInstantiated(x.ts, x.rs)
  {
    Received(x.ts, x.rs, SharesOf(x, data, sums), Val(x.input, m), c)
  }

  // ----- The step for a flow graph

  method IsNumberRow(row: seq<Quotient>) returns (ok: bool)
    ensures ok <==> forall i :: 0 <= i < |row| ==> row[i].Num?
  {
    for i := 0 to |row|
      invariant forall j :: 0 <= j < i ==> row[j].Num?
    {
      if row[i].NaN? { return false; }
    }
    return true;
  }

  method IsNumber(rows: seq<seq<Quotient>>) returns (ok: bool)
    ensures ok <==> AllNumbers(rows)
  {
    for k := 0 to |rows|
      invariant AllNumbers(rows[..k])
    {
      ok := IsNumberRow(rows[k]);
      if !ok { return; }
    }
    assert rows[..|rows|] == rows;
    return true;
  }

  /** Rescaling factors of a reconstruction, if it has factors at all. */
  method RescaleIfListed(x: FlowInput, k: nat, listed: bool, data: Data, sums: Data, ghost e: Metric)
    returns (row: seq<Quotient>, ok: bool)
    requires FlowOk(x) && k < |x.rs| && (listed <==> HasRow(data, x.ts, x.rs[k], e))
    ensures ok <==> HasRow(data, x.ts, x.rs[k], e) ==> RescaleEnd(x, sums, k).Done?
    ensures ok ==> row == RescaleRow(x, data, sums, e, k)
  {
    if !listed {
      row := seq(|x.ts|, _ => Num(0.0));
      return row, true;
    }
    var hasEC, status;
    row, hasEC, status := RescalingFactors(x.handler, x.ts, x.rs[k], sums, Phys(x.handler), Logical(x.handler));
    return row, status.Done?;
  }

  /** Rescaling factors for all reconstructions that have factors. */
  method RescaleListed(x: FlowInput, listed: seq<bool>, data: Data, sums: Data, ghost e: Metric)
    returns (rescale: seq<seq<Quotient>>, ok: bool)
    requires FlowOk(x) && |listed| == |x.rs|
    requires forall k :: 0 <= k < |x.rs| ==> (listed[k] <==> HasRow(data, x.ts, x.rs[k], e))
    ensures ok <==> !RescaleStops(x, data, sums, e)
    ensures ok ==> rescale == RescaleRows(x, data, sums, e)
  {
    rescale := [];
    for k := 0 to |x.rs|
      invariant |rescale| == k && forall j :: 0 <= j < k ==> rescale[j] == RescaleRow(x, data, sums, e, j)
      invariant forall j :: 0 <= j < k && HasRow(data, x.ts, x.rs[j], e) ==> RescaleEnd(x, sums, j).Done?
    {
      var row;
      row, ok := RescaleIfListed(x, k, listed[k], data, sums, e);
      if !ok { return; }
      rescale := rescale + [row];
    }
    ok := true;
  }

  lemma RowIs(x: FlowInput, data: Data, e: Metric, rows: seq<seq<Quotient>>, k: nat)
    requires AllInstantiated(x.ts, x.rs) && k < |x.rs|
    requires RowsExpected(data, x.ts, x.rs, e, Phys(x.handler), StandIn(x.handler), rows)
    ensures rows[k] == RowOf(x, data, e, k)
  {
  }

  lemma RowsAre(x: FlowInput, data: Data, e: Metric, rows: seq<seq<Quotient>>)
    requires AllInstantiated(x.ts, x.rs)
    requires RowsExpected(data, x.ts, x.rs, e, Phys(x.handler), StandIn(x.handler), rows)
    ensures rows == RowsOf(x, data, e)
  {
    forall k | 0 <= k < |x.rs|
      ensures rows[k] == RowOf(x, data, e, k)
    {
      RowIs(x, data, e, rows, k);
    }
  }

  lemma RowEntry(x: FlowInput, data: Data, e: Metric, k: nat, i: nat)
    requires AllInstantiated(x.ts, x.rs) && k < |x.rs| && i < |x.ts|
    ensures RowsOf(x, data, e)[k][i].NaN? <==> ZeroTotalAt(x, data, e, k, i)
  {
  }

  lemma RescaleEntryIs(x: FlowInput, data: Data, sums: Data, e: Metric, k: nat, i: nat)
    requires AllInstantiated(x.ts, x.rs) && k < |x.rs| && i < |x.ts|
    ensures RescaleRows(x, data, sums, e)[k][i].NaN? <==> ZeroRescaleAt(x, data, sums, e, k, i)
  {
  }

  /** The exterior factors are numbers if and only if no total in use is zero. */
  lemma RowNumbers(x: FlowInput, data: Data, e: Metric)
    requires AllInstantiated(x.ts, x.rs)
    ensures AllNumbers(RowsOf(x, data, e)) <==> !ZeroTotal(x, data, e)
  {
    forall k: nat, i: nat | k < |x.rs| && i < |x.ts|
      ensures RowsOf(x, data, e)[k][i].NaN? <==> ZeroTotalAt(x, data, e, k, i)
    {
      RowEntry(x, data, e, k, i);
    }
  }

  lemma RescaleNumbers(x: FlowInput, data: Data, sums: Data, e: Metric)
    requires AllInstantiated(x.ts, x.rs)
    ensures AllNumbers(RescaleRows(x, data, sums, e)) <==> !ZeroRescale(x, data, sums, e)
  {
    forall k: nat, i: nat | k < |x.rs| && i < |x.ts|
      ensures RescaleRows(x, data, sums, e)[k][i].NaN? <==> ZeroRescaleAt(x, data, sums, e, k, i)
    {
      RescaleEntryIs(x, data, sums, e, k, i);
    }
  }

  /** The interior factors of a flow graph. */
  method FlowInterior(x: FlowInput, hasEC: seq<bool>, data: Data, ghost e: Metric) returns (inner: seq<real>, ok: bool)
    requires FlowOk(x) && IsMask(data, x.ts, x.rs, e, hasEC)
    ensures ok <==> !InteriorStops(x, data, e)
    ensures ok ==> inner == InnerOf(PathsFor(x, data, e))
  {
    assert hasEC == MaskOf(x, data, e);
    var status;
    inner, status := InteriorCounts.Compute(x.handler, x.siblings, x.callers, PathsOf(x.ts), hasEC);
    if status.Computed? { InnerIs(PathsFor(x, data, e), inner); }
    ok := status.Computed?;
  }

  /** The three kinds of factors of a flow graph. */
  method FlowFactors(x: FlowInput, data: Data, sums: Data)
    returns (rows: seq<seq<Quotient>>, inner: seq<real>, rescale: seq<seq<Quotient>>, status: FlowStatus)
    requires FlowOk(x) && x.rs != []
    ensures status == FlowOutcome(x, data, sums)
    ensures status.Redistributed? ==>
              var e := Chosen(x, data).value;
              && rows == RowsOf(x, data, e) && inner == InnerOf(PathsFor(x, data, e))
              && rescale == RescaleRows(x, data, sums, e) && AllNumbers(rows) && AllNumbers(rescale)
  {
    rows, inner, rescale := [], [], [];
    OneEachHandles(x.handler);
    var ext := ComputeExterior(x.handler, x.ts, x.rs, data, Phys(x.handler), StandIn(x.handler));
    if ext.Fatal? { return rows, inner, rescale, Stopped; }
    ghost var e := Chosen(x, data).value;
    RowsAre(x, data, e, ext.rows);
    RowNumbers(x, data, e);
    RescaleNumbers(x, data, sums, e);
    var ok;
    inner, ok := FlowInterior(x, ext.hasEC, data, e);
    if !ok { return rows, inner, rescale, Stopped; }
    rescale, ok := RescaleListed(x, ext.listed, data, sums, e);
    if !ok { return rows, inner, rescale, Stopped; }
    rows := ext.rows;
    var rowNumbers := IsNumber(rows);
    var rescaleNumbers := IsNumber(rescale);
    if !rowNumbers || !rescaleNumbers { return rows, inner, rescale, NotANumber; }
    status := Redistributed;
  }

  /** One flow graph's values. It ends as `FlowOutcome` says, and then every context
    receives exactly its parts. Reconstructions without factors get products of zero,
    and zeros leave no trace. */
  method RedistributeFlow(outputs: Data, x: FlowInput, data: Data, sums: Data) returns (outputs': Data, status: FlowStatus)
    requires FlowOk(x)
    ensures status == FlowOutcome(x, data, sums)
    ensures !status.Redistributed? ==> outputs' == outputs
    ensures status.Redistributed? ==> forall c, m :: At(outputs', c, m) == At(outputs, c, m) + FlowOut(x, data, sums, c, m)
  {
    if x.rs == [] { return outputs, Redistributed; }
    var rows, inner, rescale;
    rows, inner, rescale, status := FlowFactors(x, data, sums);
    if !status.Redistributed? { return outputs, status; }
    ShapesFit(x, data, sums, Chosen(x, data).value);
    var ws;
    outputs', ws := AttributeFlow(outputs, x.ts, x.rs, rows, inner, rescale, x.input);
    ProductsAre(x.ts, rows, inner, rescale, ws);
  }

  // ----- Nothing of a flow graph's value is created or lost

  /** Some entry of the flow graph was called. */
  ghost predicate FlowCalled(x: FlowInput, data: Data)
    requires AllInstantiated(x.ts, x.rs)
  {
    Chosen(x, data).Some? && exists i :: 0 <= i < |x.ts| && Entered(data, x.rs, x.ts[i], Chosen(x, data).value)
  }

  /** Everything counted in a group is in the sums over all groups. */
  ghost predicate Listed(data: Data, sums: Data) {
    forall c, m :: At(data, c, m) != 0.0 ==> c in sums
  }

  ghost predicate FinalsIn(x: FlowInput, cs: set<Ctx>)
    requires AllInstantiated(x.ts, x.rs)
  {
    forall k, i :: 0 <= k < |x.rs| && 0 <= i < |x.ts| ==> x.rs[k].finals[i] in cs
  }

  lemma OneMetricExact(data: Data, vs: seq<Visit>, p: Option<Metric>, l: Option<Metric>)
    requires p.None? || l.None?
    requires NonNegative(data) && Pick(p, l, Seen(data, vs)).Some?
    ensures TotalsExact(data, vs, Pick(p, l, Seen(data, vs)).value, p, l)
  {
    if p.Some? {
      TotalsExactIff(p.value, l, data, vs);
    } else {
      forall s { TallyLogical(l, data, vs, s); }
    }
  }

  /** With one call metric, a template that was called is not rescaled. */
  lemma RescaleIsOne(x: FlowInput, data: Data, sums: Data, e: Metric, k: nat, i: nat)
    requires FlowOk(x) && OneCallMetric(x.handler) && Listed(data, sums) && k < |x.rs| && i < |x.ts|
    requires !ZeroTotalAt(x, data, e, k, i)
    ensures RowsOf(x, data, e)[k][i] == Num(0.0) || RescaleRows(x, data, sums, e)[k][i] == Num(1.0)
  {
    OneMetricRescale(x.handler, x.ts, x.rs[k], sums, Phys(x.handler), Logical(x.handler));
    if EntryCalls(data, x.rs[k], x.ts[i], e) != 0.0 {
      assert HasRow(data, x.ts, x.rs[k], e);
    }
  }

  lemma NothingRescaled(x: FlowInput, data: Data, sums: Data, e: Metric)
    requires FlowOk(x) && OneCallMetric(x.handler) && Listed(data, sums) && !ZeroTotal(x, data, e)
    ensures NotRescaled(x.ts, RowsOf(x, data, e), RescaleRows(x, data, sums, e))
  {
    forall k: nat, i: nat | k < |x.rs| && i < |x.ts|
      ensures RowsOf(x, data, e)[k][i] == Num(0.0) || RescaleRows(x, data, sums, e)[k][i] == Num(1.0)
    {
      assert !ZeroTotalAt(x, data, e, k, i);
      RescaleIsOne(x, data, sums, e, k, i);
    }
  }

  lemma MaskCalled(x: FlowInput, data: Data)
    requires AllInstantiated(x.ts, x.rs) && Chosen(x, data).Some?
    ensures true in MaskOf(x, data, Chosen(x, data).value) <==> FlowCalled(x, data)
  {
    var e := Chosen(x, data).value;
    if i :| 0 <= i < |x.ts| && Entered(data, x.rs, x.ts[i], e) { assert MaskOf(x, data, e)[i]; }
  }

  /** The exterior and interior factors sum to one, or to zero if nothing was called. */
  lemma TableOf(x: FlowInput, data: Data)
    requires FlowOk(x) && OneCallMetric(x.handler) && NonNegative(data) && Chosen(x, data).Some?
    requires !ZeroTotal(x, data, Chosen(x, data).value)
    ensures var e := Chosen(x, data).value;
            && AllNumbers(RowsOf(x, data, e))
            && Table(NumberRows(RowsOf(x, data, e)), InnerOf(PathsFor(x, data, e))) == if FlowCalled(x, data) then 1.0 else 0.0
  {
    var e := Chosen(x, data).value;
    var p, l := Phys(x.handler), StandIn(x.handler);
    RowNumbers(x, data, e);
    MaskCalled(x, data);
    InteriorCounts.FlowForFrozen(x.handler, x.siblings, x.callers, PathsOf(x.ts), MaskOf(x, data, e));
    OneMetricExact(data, AllVisits(x.ts, x.rs), p, l);
    FactorsConserve(data, x.ts, x.rs, e, p, l, RowsOf(x, data, e), PathsFor(x, data, e), InnerOf(PathsFor(x, data, e)));
  }

  /** With one call metric, the contexts receive together the whole of the value if some
    entry was called, and nothing otherwise. */
  lemma FlowConserves(x: FlowInput, data: Data, sums: Data, cs: set<Ctx>, v: real)
    requires FlowOk(x) && OneCallMetric(x.handler) && NonNegative(data) && Listed(data, sums) && FinalsIn(x, cs)
    requires FlowOutcome(x, data, sums).Redistributed?
    ensures SumOver<nat>(cs, ReceivedBy(x.ts, x.rs, SharesOf(x, data, sums), v)) == if FlowCalled(x, data) then v else 0.0
  {
    if x.rs == [] {
      assert Chosen(x, data).None?;
      SumOverZero<nat>(cs, ReceivedBy(x.ts, x.rs, SharesOf(x, data, sums), v));
    } else {
      var e := Chosen(x, data).value;
      var rows, inner, rescale := RowsOf(x, data, e), InnerOf(PathsFor(x, data, e)), RescaleRows(x, data, sums, e);
      TableOf(x, data);
      RescaleNumbers(x, data, sums, e);
      NothingRescaled(x, data, sums, e);
      ShapesFit(x, data, sums, e);
      ProductsAre(x.ts, rows, inner, rescale, []);
      ProductsConserve(cs, x.ts, x.rs, rows, inner, rescale, SharesOf(x, data, sums), v);
    }
  }

  /** Contexts that are not final receive nothing. */
  lemma FlowOutside(x: FlowInput, data: Data, sums: Data, cs: set<Ctx>, c: Ctx, m: Metric)
    requires AllInstantiated(x.ts, x.rs) && FinalsIn(x, cs) && c !in cs
    ensures FlowOut(x, data, sums, c, m) == 0.0
  {
    ReceivedOutside(x.ts, x.rs, SharesOf(x, data, sums), Val(x.input, m), c);
  }

  // ----- The step for a reconstruction

  ghost predicate ReconstOk(x: ReconstInput) {
    && OneEach(x.handler) && Sorted(PathsOf(x.ts)) && SuffixFree(PathsOf(x.ts))
    && x.siblings == FlowGraph.Calls(x.ts) && InteriorCounts.NoNegative(x.callers)
    && Instantiated(x.ts, x.r)
  }

  ghost function ReconstRescale(x: ReconstInput, data: Data): (row: seq<Quotient>)
    requires Instantiated(x.ts, x.r)
    ensures |row| == |x.ts|
    ensures forall i :: 0 <= i < |x.ts| ==>
                          row[i] == TemplateRescale(x.ts[i], x.r, data, Phys(x.handler), Logical(x.handler))
  {
    seq(|x.ts|, i requires 0 <= i < |x.ts| =>
      TemplateRescale(x.ts[i], x.r, data, Phys(x.handler), Logical(x.handler)))
  }

  ghost predicate ReconstInteriorStops(x: ReconstInput, data: Data)
    requires Instantiated(x.ts, x.r)
  {
    !InteriorCounts.InteriorResult(x.handler, x.siblings, x.callers, PathsOf(x.ts), Nonzero(ReconstRescale(x, data))).Computed?
  }

  ghost function ReconstOutcome(x: ReconstInput, data: Data): FlowStatus
    requires Instantiated(x.ts, x.r)
  {
    if !RescaleResult(x.handler, data, VisitsOf(x.r), Phys(x.handler), Logical(x.handler)).Done? then Stopped
    else if ReconstInteriorStops(x, data) then Stopped
    else if exists i :: 0 <= i < |x.ts| && ReconstRescale(x, data)[i].NaN? then NotANumber
    else Redistributed
  }

  ghost function Nonzero(row: seq<Quotient>): (mask: seq<bool>)
    ensures |mask| == |row| && forall i :: 0 <= i < |row| ==> mask[i] == (row[i] != Num(0.0))
  {
    seq(|row|, i requires 0 <= i < |row| => row[i] != Num(0.0))
  }

  ghost function ReconstPaths(x: ReconstInput, data: Data): InteriorSpec.Flow
    requires Instantiated(x.ts, x.r)
  {
    InteriorCounts.FlowFor(x.handler, x.siblings, x.callers, PathsOf(x.ts), Nonzero(ReconstRescale(x, data)))
  }

  function Ones(n: nat): seq<Quotient> {
    seq(n, _ => Num(1.0))
  }

  /** Rescaling times interior factor of every template. */
  ghost function ReconstShares(x: ReconstInput, data: Data): (w: seq<real>)
    requires Instantiated(x.ts, x.r)
    ensures |w| == |x.ts|
  {
    ProductRow(Ones(|x.ts|), InnerOf(ReconstPaths(x, data)), ReconstRescale(x, data))
  }

  ghost function ReconstOut(x: ReconstInput, data: Data, c: Ctx, m: Metric): real
    requires Instantiated(x.ts, x.r)
  {
    ShareAt(x.r.finals, Times(ReconstShares(x, data), Val(x.input, m)), c)
  }

  method ReconstFactors(x: ReconstInput, data: Data) returns (w: seq<real>, status: FlowStatus)
    requires ReconstOk(x)
    ensures status == ReconstOutcome(x, data)
    ensures status.Redistributed? ==> w == ReconstShares(x, data)
  {
    w := [];
    var rescale, hasEC, done := RescalingFactors(x.handler, x.ts, x.r, data, Phys(x.handler), Logical(x.handler));
    if !done.Done? { return w, Stopped; }
    assert rescale == ReconstRescale(x, data) && hasEC == Nonzero(rescale);
    var inner, interior := InteriorCounts.Compute(x.handler, x.siblings, x.callers, PathsOf(x.ts), hasEC);
    if !interior.Computed? { return w, Stopped; }
    var numbers := IsNumberRow(rescale);
    if !numbers { return w, NotANumber; }
    InnerIs(ReconstPaths(x, data), inner);
    w := Combine(Ones(|x.ts|), inner, rescale);
    status := Redistributed;
  }

  /** One reconstruction's values. */
  method RedistributeReconstruction(outputs: Data, x: ReconstInput, data: Data) returns (outputs': Data, status: FlowStatus)
    requires ReconstOk(x)
    ensures status == ReconstOutcome(x, data)
    ensures !status.Redistributed? ==> outputs' == outputs
    ensures status.Redistributed? ==> forall c, m :: At(outputs', c, m) == At(outputs, c, m) + ReconstOut(x, data, c, m)
  {
    var w;
    w, status := ReconstFactors(x, data);
    if !status.Redistributed? { return outputs, status; }
    outputs' := Attribute(outputs, x.r.finals, w, x.input);
  }

  /** Some entry of the reconstruction has data. */
  ghost predicate ReconstCalled(x: ReconstInput, data: Data)
    requires Instantiated(x.ts, x.r)
  {
    exists i :: 0 <= i < |x.ts| && x.r.entries[x.ts[i].entry] in data
  }

  /** Factors that vanish outside a mask are not changed by multiplying with it. */
  lemma MaskedProduct(inner: seq<real>, rescale: seq<Quotient>)
    requires |inner| == |rescale|
    requires forall i :: 0 <= i < |inner| ==> rescale[i] == Num(1.0) || (rescale[i] == Num(0.0) && inner[i] == 0.0)
    ensures ProductRow(Ones(|inner|), inner, rescale) == inner
  {
  }

  /** With one call metric, the factors sum to one, or to zero if nothing was called. */
  lemma ReconstUnit(x: ReconstInput, data: Data)
    requires ReconstOk(x) && OneCallMetric(x.handler)
    ensures Sum(ReconstShares(x, data)) == if ReconstCalled(x, data) then 1.0 else 0.0
  {
    var f, rescale := ReconstPaths(x, data), ReconstRescale(x, data);
    OneMetricRescale(x.handler, x.ts, x.r, data, Phys(x.handler), Logical(x.handler));
    InteriorCounts.FlowForFrozen(x.handler, x.siblings, x.callers, PathsOf(x.ts), Nonzero(rescale));
    InteriorSpec.FactorsSumToOne(f, InnerOf(f));
    MaskedProduct(InnerOf(f), rescale);
    if i :| 0 <= i < |x.ts| && x.r.entries[x.ts[i].entry] in data { assert f.possible[i]; }
  }

  ghost function ReconstOutBy(x: ReconstInput, data: Data, v: real): Ctx -> real
    requires Instantiated(x.ts, x.r)
  {
    ShareBy(x.r.finals, Times(ReconstShares(x, data), v))
  }

  /** The contexts receive together the whole of the value, or nothing. */
  lemma ReconstConserves(x: ReconstInput, data: Data, cs: set<Ctx>, v: real)
    requires ReconstOk(x) && OneCallMetric(x.handler) && forall i :: 0 <= i < |x.ts| ==> x.r.finals[i] in cs
    ensures SumOver<nat>(cs, ReconstOutBy(x, data, v)) == if ReconstCalled(x, data) then v else 0.0
  {
    var w := ReconstShares(x, data);
    ReconstUnit(x, data);
    SumTimes(w, v);
    SharesAddUp(cs, x.r.finals, Times(w, v));
  }

  lemma ReconstOutside(x: ReconstInput, data: Data, cs: set<Ctx>, c: Ctx, m: Metric)
    requires Instantiated(x.ts, x.r) && (forall i :: 0 <= i < |x.ts| ==> x.r.finals[i] in cs) && c !in cs
    ensures ReconstOut(x, data, c, m) == 0.0
  {
    ShareOutside(x.r.finals, Times(ReconstShares(x, data), Val(x.input, m)), c);
  }

  // ----- How it ends with one call metric

  /** The first entry with data of some reconstruction with factors has no call metric. */
  ghost predicate RowLacksCounter(x: FlowInput, data: Data, sums: Data, e: Metric)
    requires AllInstantiated(x.ts, x.rs)
  {
    exists k :: 0 <= k < |x.rs| && HasRow(data, x.ts, x.rs[k], e) && LacksCounter(x.handler, sums, VisitsOf(x.rs[k]))
  }

  /** A flow graph's step stops if no call metric was seen, if the interior factors cannot
    be computed, or if for a reconstruction with factors the first entry with data has no
    call metric; it divides by zero exactly if a total in use is zero. */
  lemma OneMetricOutcome(x: FlowInput, data: Data, sums: Data)
    requires FlowOk(x) && OneCallMetric(x.handler) && x.rs != []
    ensures var e := Chosen(x, data);
            FlowOutcome(x, data, sums) ==
            if e.None? || InteriorStops(x, data, e.value) || RowLacksCounter(x, data, sums, e.value) then Stopped
            else if ZeroTotal(x, data, e.value) then NotANumber
            else Redistributed
  {
    forall k: nat | k < |x.rs|
      ensures RescaleEnd(x, sums, k).Done? <==> !LacksCounter(x.handler, sums, VisitsOf(x.rs[k]))
      ensures forall i: nat :: i < |x.ts| ==> RescaleFor(x, sums, k, i).Num?
    {
      OneMetricRescale(x.handler, x.ts, x.rs[k], sums, Phys(x.handler), Logical(x.handler));
    }
  }

  /** A reconstruction's step stops exactly if the first entry with data has no call metric
    or the interior factors cannot be computed. */
  lemma OneMetricReconst(x: ReconstInput, data: Data)
    requires ReconstOk(x) && OneCallMetric(x.handler)
    ensures ReconstOutcome(x, data) ==
            if LacksCounter(x.handler, data, VisitsOf(x.r)) || ReconstInteriorStops(x, data) then Stopped else Redistributed
  {
    OneMetricRescale(x.handler, x.ts, x.r, data, Phys(x.handler), Logical(x.handler));
  }
}
