/** Redistributing the value of a flow graph: `exteriorFactors`, `rescalingFactors`
  and the part of `PerThreadTemporary::finalize` that uses them. */
module Redistribution {
  import opened Common
  import opened Paths
  import opened RealSums
  import opened ExteriorFactors
  import InteriorSpec

  /** A reconstruction: the contexts of the entry scopes, the order in which the
    source's hash map happens to list them, and one final context per template. */
  datatype Reconstruction = Reconstruction(entries: map<Scope, Ctx>, order: seq<Scope>, finals: seq<Ctx>)

  ghost predicate Instantiated(ts: seq<Template>, r: Reconstruction) {
    && |r.finals| == |ts|
    && (forall i :: 0 <= i < |ts| ==> ts[i].entry in r.order && ts[i].entry in r.entries)
    && (forall s :: s in r.order ==> s in r.entries)
    && (forall i, j :: 0 <= i < j < |r.order| ==> r.order[i] != r.order[j])
  }

  ghost predicate AllInstantiated(ts: seq<Template>, rs: seq<Reconstruction>) {
    forall k :: 0 <= k < |rs| ==> Instantiated(ts, rs[k])
  }

  function VisitsOf(r: Reconstruction): (vs: seq<Visit>)
    requires forall s :: s in r.order ==> s in r.entries
  {
    seq(|r.order|, i requires 0 <= i < |r.order| => Visit(r.order[i], r.entries[r.order[i]]))
  }

  function AllVisits(ts: seq<Template>, rs: seq<Reconstruction>): (vs: seq<Visit>)
    requires AllInstantiated(ts, rs)
  {
    if rs == [] then [] else AllVisits(ts, rs[..|rs| - 1]) + VisitsOf(rs[|rs| - 1])
  }

  // ----- Exterior factors

  datatype Quotient = Num(value: real) | NaN

  function Divide(v: real, total: real): Quotient {
    if total == 0.0 then NaN else Num(v / total)
  }

  /** `listed` tells which reconstructions have factors at all. */
  datatype Outcome = Fatal | Factors(rows: seq<seq<Quotient>>, listed: seq<bool>, hasEC: seq<bool>)

  /** Calls of template t's entry in reconstruction r. */
  ghost function EntryCalls(data: Data, r: Reconstruction, t: Template, m: Metric): real
    requires t.entry in r.entries
  {
    At(data, r.entries[t.entry], m)
  }

  ghost function Expected(data: Data, r: Reconstruction, t: Template, m: Metric, total: real): Quotient
    requires t.entry in r.entries
  {
    if m in KeysAt(data, r.entries[t.entry]) then Divide(EntryCalls(data, r, t, m), total) else Num(0.0)
  }

  /** Some entry of the reconstruction has the metric. */
  ghost predicate HasRow(data: Data, ts: seq<Template>, r: Reconstruction, m: Metric)
    requires forall i :: 0 <= i < |ts| ==> ts[i].entry in r.entries
  {
    exists i :: 0 <= i < |ts| && m in KeysAt(data, r.entries[ts[i].entry])
  }

  /** The factors of one reconstruction: value over total where the entry has the metric. */
  ghost predicate IsRow(data: Data, ts: seq<Template>, r: Reconstruction, m: Metric, totals: map<Scope, real>, row: seq<Quotient>)
    requires forall i :: 0 <= i < |ts| ==> ts[i].entry in r.entries
  {
    |row| == |ts| && forall i :: 0 <= i < |ts| ==> row[i] == Expected(data, r, ts[i], m, TotalAt(totals, ts[i].entry))
  }

  method FactorRow(ts: seq<Template>, r: Reconstruction, data: Data, m: Metric, totals: map<Scope, real>,
                   hasEC: seq<bool>)
    returns (row: seq<Quotient>, listed: bool, hasEC': seq<bool>)
    requires Instantiated(ts, r) && |hasEC| == |ts|
    requires forall i :: 0 <= i < |ts| && m in KeysAt(data, r.entries[ts[i].entry]) ==> ts[i].entry in totals
    ensures IsRow(data, ts, r, m, totals, row) && (listed <==> HasRow(data, ts, r, m))
    ensures |hasEC'| == |ts|
    ensures forall i :: 0 <= i < |ts| ==> hasEC'[i] == (hasEC[i] || EntryCalls(data, r, ts[i], m) != 0.0)
  {
    row, listed, hasEC' := seq(|ts|, _ => Num(0.0)), false, hasEC;
    for i := 0 to |ts|
      invariant |row| == |hasEC'| == |ts|
      invariant listed <==> exists j :: 0 <= j < i && m in KeysAt(data, r.entries[ts[j].entry])
      invariant forall j :: 0 <= j < i ==> row[j] == Expected(data, r, ts[j], m, TotalAt(totals, ts[j].entry))
      invariant forall j :: i <= j < |ts| ==> row[j] == Num(0.0) && hasEC'[j] == hasEC[j]
      invariant forall j :: 0 <= j < i ==> hasEC'[j] == (hasEC[j] || EntryCalls(data, r, ts[j], m) != 0.0)
    {
      var t := ts[i];
      var c := r.entries[t.entry];
      if c in data && m in data[c] {
        var v := data[c][m];
        listed := true;
        row := row[i := Divide(v, totals[t.entry])];
        hasEC' := hasEC'[i := hasEC'[i] || v != 0.0];
      }
    }
  }

  lemma {:induction false} VisitListed(ts: seq<Template>, rs: seq<Reconstruction>, k: nat, i: nat)
    requires AllInstantiated(ts, rs) && k < |rs| && i < |ts|
    ensures Visit(ts[i].entry, rs[k].entries[ts[i].entry]) in AllVisits(ts, rs)
  {
    var n := |rs| - 1;
    if k == n {
      assert ts[i].entry in rs[k].order;
      var x :| 0 <= x < |rs[k].order| && rs[k].order[x] == ts[i].entry;
      assert VisitsOf(rs[k])[x] in AllVisits(ts, rs);
    } else {
      VisitListed(ts, rs[..n], k, i);
    }
  }

  ghost predicate RowsExpected(data: Data, ts: seq<Template>, rs: seq<Reconstruction>, m: Metric,
                               p: Option<Metric>, l: Option<Metric>, rows: seq<seq<Quotient>>)
    requires AllInstantiated(ts, rs)
  {
    && |rows| == |rs|
    && (forall k :: 0 <= k < |rs| ==> |rows[k]| == |ts|)
    && (forall k, i :: 0 <= k < |rs| && 0 <= i < |ts| ==>
                         rows[k][i] == Expected(data, rs[k], ts[i], m, Tally(p, l, data, AllVisits(ts, rs), ts[i].entry)))
  }

  ghost predicate Entered(data: Data, rs: seq<Reconstruction>, t: Template, m: Metric)
    requires forall k :: 0 <= k < |rs| ==> t.entry in rs[k].entries
  {
    exists k :: 0 <= k < |rs| && EntryCalls(data, rs[k], t, m) != 0.0
  }

  lemma EnteredLast(data: Data, rs: seq<Reconstruction>, k: nat, t: Template, m: Metric)
    requires k < |rs| && forall j :: 0 <= j < |rs| ==> t.entry in rs[j].entries
    ensures Entered(data, rs[..k + 1], t, m) <==>
            Entered(data, rs[..k], t, m) || EntryCalls(data, rs[k], t, m) != 0.0
  {
  }

  /** Which templates were entered. */
  ghost predicate IsMask(data: Data, ts: seq<Template>, rs: seq<Reconstruction>, m: Metric, hasEC: seq<bool>)
    requires AllInstantiated(ts, rs)
  {
    |hasEC| == |ts| && forall i :: 0 <= i < |ts| ==> (hasEC[i] <==> Entered(data, rs, ts[i], m))
  }

  lemma MaskGrows(data: Data, ts: seq<Template>, rs: seq<Reconstruction>, k: nat, m: Metric,
                  hasEC: seq<bool>, hasEC': seq<bool>)
    requires AllInstantiated(ts, rs) && k < |rs| && IsMask(data, ts, rs[..k], m, hasEC) && |hasEC'| == |ts|
    requires forall i :: 0 <= i < |ts| ==> hasEC'[i] == (hasEC[i] || EntryCalls(data, rs[k], ts[i], m) != 0.0)
    ensures IsMask(data, ts, rs[..k + 1], m, hasEC')
  {
    forall i | 0 <= i < |ts|
      ensures hasEC'[i] <==> Entered(data, rs[..k + 1], ts[i], m)
    {
      EnteredLast(data, rs, k, ts[i], m);
    }
  }

  ghost predicate AreRows(data: Data, ts: seq<Template>, rs: seq<Reconstruction>, m: Metric, totals: map<Scope, real>,
                          rows: seq<seq<Quotient>>, listed: seq<bool>)
    requires AllInstantiated(ts, rs)
  {
    && |rows| == |listed| <= |rs|
    && forall k :: 0 <= k < |rows| ==> IsRow(data, ts, rs[k], m, totals, rows[k]) && (listed[k] <==> HasRow(data, ts, rs[k], m))
  }

  lemma RowsGrow(data: Data, ts: seq<Template>, rs: seq<Reconstruction>, m: Metric, totals: map<Scope, real>,
                 rows: seq<seq<Quotient>>, listed: seq<bool>, row: seq<Quotient>, has: bool)
    requires AllInstantiated(ts, rs) && AreRows(data, ts, rs, m, totals, rows, listed) && |rows| < |rs|
    requires IsRow(data, ts, rs[|rows|], m, totals, row) && (has <==> HasRow(data, ts, rs[|rows|], m))
    ensures AreRows(data, ts, rs, m, totals, rows + [row], listed + [has])
  {
  }

  /** Second loop nest: divide by the totals. */
  method ExteriorRows(ts: seq<Template>, rs: seq<Reconstruction>, data: Data, m: Metric, totals: map<Scope, real>)
    returns (rows: seq<seq<Quotient>>, listed: seq<bool>, hasEC: seq<bool>)
    requires AllInstantiated(ts, rs)
    requires forall k, i :: 0 <= k < |rs| && 0 <= i < |ts| && m in KeysAt(data, rs[k].entries[ts[i].entry]) ==>
                              ts[i].entry in totals
    ensures |rows| == |rs| && AreRows(data, ts, rs, m, totals, rows, listed)
    ensures IsMask(data, ts, rs, m, hasEC)
  {
    rows, listed, hasEC := [], [], seq(|ts|, _ => false);
    for k := 0 to |rs|
      invariant |rows| == k && AreRows(data, ts, rs, m, totals, rows, listed)
      invariant IsMask(data, ts, rs[..k], m, hasEC)
    {
      ghost var before := hasEC;
      var row, has;
      row, has, hasEC := FactorRow(ts, rs[k], data, m, totals, hasEC);
      MaskGrows(data, ts, rs, k, m, before, hasEC);
      RowsGrow(data, ts, rs, m, totals, rows, listed, row, has);
      rows, listed := rows + [row], listed + [has];
    }
    assert rs[..|rs|] == rs;
  }

  /** The exterior factors of all templates in all reconstructions, and which
    templates were entered at all. */
  method ComputeExterior(handler: Metric -> Handling, ts: seq<Template>, rs: seq<Reconstruction>, data: Data,
                         ghost p: Option<Metric>, ghost l: Option<Metric>)
    returns (out: Outcome)
    requires AllInstantiated(ts, rs) && Handles(handler, p, l)
    ensures out.Fatal? <==> Pick(p, l, Seen(data, AllVisits(ts, rs))).None?
    ensures out.Factors? ==>
              var m := Pick(p, l, Seen(data, AllVisits(ts, rs))).value;
              && RowsExpected(data, ts, rs, m, p, l, out.rows)
              && |out.listed| == |rs| && (forall k :: 0 <= k < |rs| ==> (out.listed[k] <==> HasRow(data, ts, rs[k], m)))
              && IsMask(data, ts, rs, m, out.hasEC)
  {
    HandledIsClear(handler, p, l, Seen(data, AllVisits(ts, rs)));
    var totals, metric, fatal := EntryTotals(handler, data, AllVisits(ts, rs));
    if metric.None? { return Fatal; }
    var m := metric.value;
    forall k, i | 0 <= k < |rs| && 0 <= i < |ts| && m in KeysAt(data, rs[k].entries[ts[i].entry])
      ensures ts[i].entry in totals
    {
      VisitListed(ts, rs, k, i);
    }
    var rows, listed, hasEC := ExteriorRows(ts, rs, data, m, totals);
    return Factors(rows, listed, hasEC);
  }

  // ----- The exterior factors of an entered template sum to one

  lemma {:induction false} SumAtConcat(data: Data, a: seq<Visit>, b: seq<Visit>, s: Scope, m: Option<Metric>)
    ensures SumAt(data, a + b, s, m) == SumAt(data, a, s, m) + SumAt(data, b, s, m)
    decreases |b|
  {
    if b == [] {
      assert a + b == a;
    } else {
      assert (a + b)[..|a + b| - 1] == a + b[..|b| - 1];
      SumAtConcat(data, a, b[..|b| - 1], s, m);
    }
  }

  lemma {:induction false} SumAtAbsent(data: Data, vs: seq<Visit>, s: Scope, m: Option<Metric>)
    requires forall i :: 0 <= i < |vs| ==> vs[i].entry != s
    ensures SumAt(data, vs, s, m) == 0.0
  {
    if vs != [] {
      SumAtAbsent(data, vs[..|vs| - 1], s, m);
    }
  }

  lemma SumAtOnce(data: Data, vs: seq<Visit>, x: nat, m: Option<Metric>)
    requires x < |vs| && forall i :: 0 <= i < |vs| && i != x ==> vs[i].entry != vs[x].entry
    ensures SumAt(data, vs, vs[x].entry, m) == AtOpt(data, vs[x].ctx, m)
  {
    var s := vs[x].entry;
    assert vs == vs[..x + 1] + vs[x + 1..];
    SumAtConcat(data, vs[..x + 1], vs[x + 1..], s, m);
    SumAtAbsent(data, vs[x + 1..], s, m);
    assert vs[..x + 1][..x] == vs[..x];
    SumAtAbsent(data, vs[..x], s, m);
  }

  /** Calls of template i's entry, reconstruction by reconstruction. */
  ghost function CallsOf(data: Data, ts: seq<Template>, rs: seq<Reconstruction>, i: nat, m: Metric): (c: seq<real>)
    requires AllInstantiated(ts, rs) && i < |ts|
    ensures |c| == |rs| && forall k :: 0 <= k < |rs| ==> c[k] == EntryCalls(data, rs[k], ts[i], m)
  {
    seq(|rs|, k requires 0 <= k < |rs| => EntryCalls(data, rs[k], ts[i], m))
  }

  lemma {:induction false} VisitsSum(data: Data, ts: seq<Template>, rs: seq<Reconstruction>, i: nat, m: Metric)
    requires AllInstantiated(ts, rs) && i < |ts|
    ensures SumAt(data, AllVisits(ts, rs), ts[i].entry, Some(m)) == Sum(CallsOf(data, ts, rs, i, m))
  {
    if rs != [] {
      var n := |rs| - 1;
      var r, s := rs[n], ts[i].entry;
      var before := AllVisits(ts, rs[..n]);
      calc {
        SumAt(data, AllVisits(ts, rs), s, Some(m));
        { SumAtConcat(data, before, VisitsOf(r), s, Some(m)); }
        SumAt(data, before, s, Some(m)) + SumAt(data, VisitsOf(r), s, Some(m));
        { VisitsSum(data, ts, rs[..n], i, m); OwnVisit(data, ts, r, i, m); }
        Sum(CallsOf(data, ts, rs[..n], i, m)) + EntryCalls(data, r, ts[i], m);
        { assert CallsOf(data, ts, rs, i, m)[..n] == CallsOf(data, ts, rs[..n], i, m); }
        Sum(CallsOf(data, ts, rs, i, m));
      }
    }
  }

  lemma OwnVisit(data: Data, ts: seq<Template>, r: Reconstruction, i: nat, m: Metric)
    requires Instantiated(ts, r) && i < |ts|
    ensures SumAt(data, VisitsOf(r), ts[i].entry, Some(m)) == EntryCalls(data, r, ts[i], m)
  {
    assert ts[i].entry in r.order;
    var x :| 0 <= x < |r.order| && r.order[x] == ts[i].entry;
    SumAtOnce(data, VisitsOf(r), x, Some(m));
  }

  ghost predicate AllNumbers(rows: seq<seq<Quotient>>) {
    forall k, i :: 0 <= k < |rows| && 0 <= i < |rows[k]| ==> rows[k][i].Num?
  }

  ghost function Numbers(row: seq<Quotient>): (r: seq<real>)
    requires forall i :: 0 <= i < |row| ==> row[i].Num?
    ensures |r| == |row| && forall i :: 0 <= i < |row| ==> r[i] == row[i].value
  {
    seq(|row|, i requires 0 <= i < |row| => row[i].value)
  }

  ghost function NumberRows(rows: seq<seq<Quotient>>): (r: seq<seq<real>>)
    requires AllNumbers(rows)
    ensures |r| == |rows| && forall k :: 0 <= k < |rows| ==> r[k] == Numbers(rows[k])
  {
    seq(|rows|, k requires 0 <= k < |rows| => Numbers(rows[k]))
  }

  /** Every denominator is the number of calls counted by the chosen metric. */
  ghost predicate TotalsExact(data: Data, vs: seq<Visit>, m: Metric, p: Option<Metric>, l: Option<Metric>) {
    forall s :: Tally(p, l, data, vs, s) == SumAt(data, vs, s, Some(m))
  }

  lemma EnteredTotal(data: Data, ts: seq<Template>, rs: seq<Reconstruction>, m: Metric,
                     p: Option<Metric>, l: Option<Metric>, rows: seq<seq<Quotient>>, i: nat)
    requires AllInstantiated(ts, rs) && RowsExpected(data, ts, rs, m, p, l, rows) && AllNumbers(rows)
    requires TotalsExact(data, AllVisits(ts, rs), m, p, l)
    requires i < |ts| && Entered(data, rs, ts[i], m)
    ensures var total := Sum(CallsOf(data, ts, rs, i, m));
            total != 0.0 && total == Tally(p, l, data, AllVisits(ts, rs), ts[i].entry)
  {
    VisitsSum(data, ts, rs, i, m);
    var k :| 0 <= k < |rs| && EntryCalls(data, rs[k], ts[i], m) != 0.0;
    assert rows[k][i].Num?;
  }

  lemma ColumnQuotients(data: Data, ts: seq<Template>, rs: seq<Reconstruction>, m: Metric,
                        p: Option<Metric>, l: Option<Metric>, rows: seq<seq<Quotient>>, i: nat, total: real)
    requires AllInstantiated(ts, rs) && RowsExpected(data, ts, rs, m, p, l, rows)
    requires i < |ts| && total == Tally(p, l, data, AllVisits(ts, rs), ts[i].entry) != 0.0
    ensures forall k :: 0 <= k < |rs| ==> rows[k][i] == Num(CallsOf(data, ts, rs, i, m)[k] / total)
  {
  }

  lemma EnteredColumnIsOne(data: Data, ts: seq<Template>, rs: seq<Reconstruction>, m: Metric,
                           p: Option<Metric>, l: Option<Metric>, rows: seq<seq<Quotient>>, i: nat)
    requires AllInstantiated(ts, rs) && RowsExpected(data, ts, rs, m, p, l, rows) && AllNumbers(rows)
    requires TotalsExact(data, AllVisits(ts, rs), m, p, l)
    requires i < |ts| && Entered(data, rs, ts[i], m)
    ensures Columns(NumberRows(rows), |ts|)[i] == 1.0
  {
    var calls, nums := CallsOf(data, ts, rs, i, m), NumberRows(rows);
    EnteredTotal(data, ts, rs, m, p, l, rows, i);
    ColumnQuotients(data, ts, rs, m, p, l, rows, i, Sum(calls));
    var column := seq(|nums|, k requires 0 <= k < |nums| => nums[k][i]);
    QuotientColumn(nums, |ts|, i, calls, column, Sum(calls));
  }

  /** Conservation: over all reconstructions and templates the products of exterior
    and interior factor sum to one as soon as one entry was called. */
  lemma FactorsConserve(data: Data, ts: seq<Template>, rs: seq<Reconstruction>, m: Metric,
                        p: Option<Metric>, l: Option<Metric>, rows: seq<seq<Quotient>>,
                        f: InteriorSpec.Flow, inner: seq<real>)
    requires AllInstantiated(ts, rs) && RowsExpected(data, ts, rs, m, p, l, rows) && AllNumbers(rows)
    requires TotalsExact(data, AllVisits(ts, rs), m, p, l)
    requires f.paths == PathsOf(ts) && InteriorSpec.Frozen(f) && InteriorSpec.AreFactors(f, inner)
    requires forall i :: 0 <= i < |ts| ==> (f.possible[i] <==> Entered(data, rs, ts[i], m))
    ensures Table(NumberRows(rows), inner) == if true in f.possible then 1.0 else 0.0
  {
    InteriorSpec.FactorsSumToOne(f, inner);
    var nums := NumberRows(rows);
    TableByColumns(nums, inner);
    forall i | 0 <= i < |inner| && inner[i] != 0.0
      ensures Columns(nums, |ts|)[i] == 1.0
    {
      EnteredColumnIsOne(data, ts, rs, m, p, l, rows, i);
    }
    DotUnit(Columns(nums, |ts|), inner);
  }
}
