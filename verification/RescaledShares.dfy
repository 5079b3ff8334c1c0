/** What contexts receive of a value, factor by factor and from the data alone, also where
  logical and physical calls are counted apart. */
module RescaledShares {
  import opened Common
  import opened Paths
  import opened RealSums
  import opened ExteriorFactors
  import opened Redistribution
  import opened Rescaling
  import opened Attribution
  import opened FlowRedistribution
  import InteriorSpec
  import InteriorCounts

  /** By the time entry s is looked at, some entry has shown metric m. */
  ghost predicate ShownBy(sums: Data, r: Reconstruction, s: Scope, m: Metric) {
    exists j, n :: 0 <= j <= n < |r.order| && r.order[n] == s && Shows(sums, r, j, m)
  }

  ghost predicate Shows(sums: Data, r: Reconstruction, j: nat, m: Metric)
    requires j < |r.order|
  {
    r.order[j] in r.entries && r.entries[r.order[j]] in sums && m in sums[r.entries[r.order[j]]]
  }

  /** Logical calls for each physical call of the entry: one as long as not both kinds have
    been shown, and nothing without data. */
  ghost function CallRatio(handler: Metric -> Handling, sums: Data, r: Reconstruction, s: Scope): real
    requires s in r.entries
  {
    var c, p, l := r.entries[s], Phys(handler), Logical(handler);
    if c !in sums then 0.0
    else if p.Some? && l.Some? && ShownBy(sums, r, s, p.value) && ShownBy(sums, r, s, l.value) then
      var physical := At(sums, c, p.value);
      if physical == 0.0 then 0.0 else At(sums, c, l.value) / physical
    else 1.0
  }

  /** Both kinds have been shown, and there are no physical calls to divide by. */
  ghost predicate ZeroCalls(handler: Metric -> Handling, sums: Data, r: Reconstruction, s: Scope)
    requires s in r.entries
  {
    var c, p, l := r.entries[s], Phys(handler), Logical(handler);
    && c in sums && p.Some? && l.Some? && ShownBy(sums, r, s, p.value) && ShownBy(sums, r, s, l.value)
    && At(sums, c, p.value) == 0.0
  }

  lemma {:induction false} SeenIffShown(sums: Data, vs: seq<Visit>, m: Metric)
    ensures m in Seen(sums, vs) <==> exists j :: 0 <= j < |vs| && m in KeysAt(sums, vs[j].ctx)
  {
    if vs != [] {
      var n := |vs| - 1;
      SeenIffShown(sums, vs[..n], m);
      if j :| 0 <= j < |vs| && m in KeysAt(sums, vs[j].ctx) {
        if j < n { assert vs[..n][j] == vs[j]; }
      }
    }
  }

  lemma ShownIffSeen(sums: Data, r: Reconstruction, s: Scope, m: Metric, x: nat)
    requires (forall s :: s in r.order ==> s in r.entries) && Distinct(r.order) && x < |r.order| && r.order[x] == s
    ensures ShownBy(sums, r, s, m) <==> m in Seen(sums, VisitsOf(r)[..x + 1])
  {
    var vs := VisitsOf(r)[..x + 1];
    SeenIffShown(sums, vs, m);
    forall j: nat | j <= x
      ensures Shows(sums, r, j, m) <==> m in KeysAt(sums, vs[j].ctx)
    {
      assert vs[j] == VisitsOf(r)[j];
    }
    if j: nat, n: nat :| j <= n < |r.order| && r.order[n] == s && Shows(sums, r, j, m) {
      assert n == x;
      assert m in KeysAt(sums, vs[j].ctx);
    }
    if j :| 0 <= j < |vs| && m in KeysAt(sums, vs[j].ctx) {
      assert Shows(sums, r, j, m);
    }
  }

  /** The rescaling factor of a template is that ratio, and not a number exactly if there
    are no physical calls. */
  lemma RescaleIsRatio(handler: Metric -> Handling, t: Template, r: Reconstruction, sums: Data)
    requires t.entry in r.order && (forall s :: s in r.order ==> s in r.entries) && Distinct(r.order)
    ensures var q := TemplateRescale(t, r, sums, Phys(handler), Logical(handler));
            && (q.Num? ==> q.value == CallRatio(handler, sums, r, t.entry))
            && (q.NaN? <==> ZeroCalls(handler, sums, r, t.entry))
  {
    var x, p, l := PositionOf(r, t.entry), Phys(handler), Logical(handler);
    assert VisitsOf(r)[x] == Visit(t.entry, r.entries[t.entry]);
    if p.Some? { ShownIffSeen(sums, r, t.entry, p.value, x); }
    if l.Some? { ShownIffSeen(sums, r, t.entry, l.value, x); }
  }

  // ----- Flow graphs

  ghost function Product(a: real, b: real, c: real): real {
    a * b * c
  }

  lemma ProductAt(row: seq<Quotient>, inner: seq<real>, rescale: seq<Quotient>, i: nat, c: real)
    requires |row| == |inner| == |rescale| && i < |row|
    requires ValueOf(row[i]) == 0.0 || ValueOf(rescale[i]) == c
    ensures ProductRow(row, inner, rescale)[i] == Product(ValueOf(row[i]), inner[i], c)
  {
    SameProduct(ValueOf(row[i]), inner[i], ValueOf(rescale[i]), c);
  }

  /** The calls of template i's entry in reconstruction k, as a part of all of them. */
  ghost function ExteriorPart(x: FlowInput, data: Data, e: Metric, k: nat, i: nat): real
    requires AllInstantiated(x.ts, x.rs) && k < |x.rs| && i < |x.ts|
  {
    var calls, total := At(data, x.rs[k].entries[x.ts[i].entry], e), TotalFor(x, data, x.ts[i].entry);
    if calls == 0.0 || total == 0.0 then 0.0 else calls / total
  }

  ghost function Part(x: FlowInput, data: Data, sums: Data, e: Metric, k: nat, i: nat): real
    requires AllInstantiated(x.ts, x.rs) && k < |x.rs| && i < |x.ts|
  {
    Product(ExteriorPart(x, data, e, k, i), InteriorSpec.Factor(PathsFor(x, data, e), i),
            CallRatio(x.handler, sums, x.rs[k], x.ts[i].entry))
  }

  ghost function Parts(x: FlowInput, data: Data, sums: Data, e: Metric, k: nat): (w: seq<real>)
    requires AllInstantiated(x.ts, x.rs) && k < |x.rs|
    ensures |w| == |x.ts| && forall i :: 0 <= i < |x.ts| ==> w[i] == Part(x, data, sums, e, k, i)
  {
    seq(|x.ts|, i requires 0 <= i < |x.ts| => Part(x, data, sums, e, k, i))
  }

  ghost function AllParts(x: FlowInput, data: Data, sums: Data, e: Metric): (ws: seq<seq<real>>)
    requires AllInstantiated(x.ts, x.rs)
    ensures Shaped(x.ts, x.rs, ws) && forall k :: 0 <= k < |x.rs| ==> ws[k] == Parts(x, data, sums, e, k)
  {
    seq(|x.rs|, k requires 0 <= k < |x.rs| => Parts(x, data, sums, e, k))
  }

  lemma RowIsExterior(x: FlowInput, data: Data, e: Metric, k: nat, i: nat)
    requires AllInstantiated(x.ts, x.rs) && k < |x.rs| && i < |x.ts| && !ZeroTotalAt(x, data, e, k, i)
    ensures ValueOf(RowsOf(x, data, e)[k][i]) == ExteriorPart(x, data, e, k, i)
  {
    var calls, total := At(data, x.rs[k].entries[x.ts[i].entry], e), TotalFor(x, data, x.ts[i].entry);
    if calls == 0.0 && total != 0.0 { NothingOf(total); }
  }

  lemma NothingOf(total: real)
    requires total != 0.0
    ensures 0.0 / total == 0.0
  {
  }

  lemma RescaleIsCallRatio(x: FlowInput, data: Data, sums: Data, e: Metric, k: nat, i: nat)
    requires FlowOk(x) && k < |x.rs| && i < |x.ts| && !ZeroRescaleAt(x, data, sums, e, k, i)
    ensures ExteriorPart(x, data, e, k, i) == 0.0
            || ValueOf(RescaleRows(x, data, sums, e)[k][i]) == CallRatio(x.handler, sums, x.rs[k], x.ts[i].entry)
  {
    RescaleIsRatio(x.handler, x.ts[i], x.rs[k], sums);
    if At(data, x.rs[k].entries[x.ts[i].entry], e) != 0.0 {
      assert HasRow(data, x.ts, x.rs[k], e);
    }
  }

  lemma SameProduct(a: real, b: real, c: real, d: real)
    requires a == 0.0 || c == d
    ensures a * b * c == a * b * d
  {
  }

  lemma ShareIsPart(x: FlowInput, data: Data, sums: Data, k: nat, i: nat)
    requires FlowOk(x) && k < |x.rs| && i < |x.ts| && FlowOutcome(x, data, sums).Redistributed?
    ensures Chosen(x, data).Some?
    ensures SharesOf(x, data, sums)[k][i] == Part(x, data, sums, Chosen(x, data).value, k, i)
  {
    var e := Chosen(x, data).value;
    assert !ZeroTotalAt(x, data, e, k, i) && !ZeroRescaleAt(x, data, sums, e, k, i);
    RowIsExterior(x, data, e, k, i);
    RescaleIsCallRatio(x, data, sums, e, k, i);
    ShapesFit(x, data, sums, e);
    ProductAt(RowsOf(x, data, e)[k], InnerOf(PathsFor(x, data, e)), RescaleRows(x, data, sums, e)[k], i,
              CallRatio(x.handler, sums, x.rs[k], x.ts[i].entry));
  }

  /** Every template's part of a flow graph's value is its part of the calls, times its
    interior factor, times logical calls for each physical one. */
  lemma SharesAreParts(x: FlowInput, data: Data, sums: Data)
    requires FlowOk(x) && x.rs != [] && FlowOutcome(x, data, sums).Redistributed?
    ensures Chosen(x, data).Some? && SharesOf(x, data, sums) == AllParts(x, data, sums, Chosen(x, data).value)
  {
    var ws, parts := SharesOf(x, data, sums), AllParts(x, data, sums, Chosen(x, data).value);
    forall k | 0 <= k < |x.rs|
      ensures ws[k] == parts[k]
    {
      forall i | 0 <= i < |x.ts|
        ensures ws[k][i] == parts[k][i]
      {
        ShareIsPart(x, data, sums, k, i);
      }
    }
  }

  /** All contexts together receive the value times the sum of these parts. */
  lemma FlowTotal(x: FlowInput, data: Data, sums: Data, cs: set<Ctx>, v: real)
    requires FlowOk(x) && x.rs != [] && FinalsIn(x, cs) && FlowOutcome(x, data, sums).Redistributed?
    ensures Chosen(x, data).Some?
    ensures SumOver<nat>(cs, ReceivedBy(x.ts, x.rs, SharesOf(x, data, sums), v)) ==
            By(v)(RowSums(AllParts(x, data, sums, Chosen(x, data).value)))
  {
    SharesAreParts(x, data, sums);
    ReceivedTotal(cs, x.ts, x.rs, SharesOf(x, data, sums), v);
  }

  /** The interior factors are products of the parts that calls have of all calls possible
    at the same point, as measured for the siblings. */
  lemma PathsMeasured(x: FlowInput, data: Data, e: Metric)
    requires AllInstantiated(x.ts, x.rs)
    ensures InteriorCounts.SharesMeasured(PathsFor(x, data, e), x.callers,
                                          InteriorCounts.Interior(x.handler, x.siblings, x.callers))
  {
    InteriorCounts.FlowForMeasured(x.handler, x.siblings, x.callers, PathsOf(x.ts), MaskOf(x, data, e));
  }

  // ----- Reconstructions

  lemma ReconstPathsMeasured(x: ReconstInput, data: Data)
    requires Instantiated(x.ts, x.r)
    ensures InteriorCounts.SharesMeasured(ReconstPaths(x, data), x.callers,
                                          InteriorCounts.Interior(x.handler, x.siblings, x.callers))
  {
    InteriorCounts.FlowForMeasured(x.handler, x.siblings, x.callers, PathsOf(x.ts), Nonzero(ReconstRescale(x, data)));
  }

  /** Every template's part of a reconstruction's value is its interior factor times logical
    calls for each physical one. */
  lemma ReconstSharesAre(x: ReconstInput, data: Data, i: nat)
    requires ReconstOk(x) && i < |x.ts| && ReconstOutcome(x, data).Redistributed?
    ensures ReconstShares(x, data)[i] ==
            Product(1.0, InteriorSpec.Factor(ReconstPaths(x, data), i), CallRatio(x.handler, data, x.r, x.ts[i].entry))
  {
    RescaleIsRatio(x.handler, x.ts[i], x.r, data);
    assert ReconstRescale(x, data)[i].Num?;
    ProductAt(Ones(|x.ts|), InnerOf(ReconstPaths(x, data)), ReconstRescale(x, data), i,
              CallRatio(x.handler, data, x.r, x.ts[i].entry));
  }
}
