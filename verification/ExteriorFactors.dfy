/** `ContextFlowGraph::exteriorFactors`: dividing the calls that enter a flow graph
  among the reconstructions that may have made them. */
module ExteriorFactors {
  import opened Common
  import opened Paths

  type Metric = nat
  type Ctx = nat
  /** Point values by metric, and by context. */
  type Values = map<Metric, real>
  type Data = map<Ctx, Values>

  datatype Handling = Handling(exterior: bool, exteriorLogical: bool, interior: bool)

  function Val(values: Values, m: Metric): real {
    if m in values then values[m] else 0.0
  }

  function At(data: Data, c: Ctx, m: Metric): real {
    if c in data then Val(data[c], m) else 0.0
  }

  /** The documented limit on handlers: one metric counts physical calls, one
    logical calls, and either may be missing. */
  ghost predicate Handles(handler: Metric -> Handling, phys: Option<Metric>, logical: Option<Metric>) {
    && (forall m: Metric :: handler(m).exterior && !handler(m).exteriorLogical <==> phys == Some(m))
    && (forall m: Metric :: handler(m).exterior && handler(m).exteriorLogical <==> logical == Some(m))
  }

  // ----- Choosing the metric

  /** The choice made so far: which metrics were looked at and which one counts. */
  datatype Choice = Choice(queried: set<Metric>, metric: Option<Metric>, isLogical: bool)

  /** Two of the metrics count calls of the same kind. */
  ghost predicate Clash(handler: Metric -> Handling, q: set<Metric>, logical: bool) {
    exists a, b :: a in q && b in q && a != b && Counts(handler, a, logical) && Counts(handler, b, logical)
  }

  ghost predicate Counts(handler: Metric -> Handling, m: Metric, logical: bool) {
    handler(m).exterior && handler(m).exteriorLogical == logical
  }

  /** Two metrics for physical calls, or two for logical calls and none for physical
    ones: no order of looking at them avoids the conflict. */
  ghost predicate SureClash(handler: Metric -> Handling, q: set<Metric>) {
    Clash(handler, q, false) || (Clash(handler, q, true) && forall m :: m in q ==> !Counts(handler, m, false))
  }

  /** Physical calls are preferred to logical ones. */
  ghost predicate Preferred(handler: Metric -> Handling, c: Choice) {
    && (c.metric.Some? ==>
          && c.metric.value in c.queried && handler(c.metric.value).exterior
          && handler(c.metric.value).exteriorLogical == c.isLogical)
    && (forall m :: m in c.queried && handler(m).exterior ==>
                      && c.metric.Some?
                      && (!handler(m).exteriorLogical ==> !c.isLogical))
    && !SureClash(handler, c.queried)
  }

  /** Look at all metrics of one entry context, in any order. Fails only if two of the
    metrics seen count the same kind of calls, and always if no order avoids that. */
  method Query(handler: Metric -> Handling, values: Values, c: Choice) returns (c': Choice, fatal: bool)
    requires Preferred(handler, c)
    ensures !fatal ==> c'.queried == c.queried + values.Keys && Preferred(handler, c')
    ensures c'.metric == c.metric || (c'.metric.Some? && c'.metric.value !in c.queried)
    ensures fatal ==> Clash(handler, c.queried + values.Keys, false) || Clash(handler, c.queried + values.Keys, true)
    ensures SureClash(handler, c.queried + values.Keys) ==> fatal
  {
    c' := c;
    var todo := values.Keys;
    while todo != {}
      invariant todo <= values.Keys
      invariant c'.queried == c.queried + (values.Keys - todo)
      invariant Preferred(handler, c')
      invariant c'.metric == c.metric || (c'.metric.Some? && c'.metric.value !in c.queried)
    {
      var m: Metric :| m in todo;
      todo := todo - {m};
      if m in c'.queried {
        assert c'.queried == c.queried + (values.Keys - todo);
        continue;
      }
      var h := handler(m);
      var metric, isLogical := c'.metric, c'.isLogical;
      if h.exterior {
        if metric.Some? && isLogical == h.exteriorLogical {
          assert Counts(handler, m, isLogical) && Counts(handler, metric.value, isLogical);
          return c', true;
        } else if metric.None? || isLogical {
          metric, isLogical := Some(m), h.exteriorLogical;
        }
      }
      c' := Choice(c'.queried + {m}, metric, isLogical);
      assert c'.queried == c.queried + (values.Keys - todo);
    }
    return c', false;
  }

  /** The metric that counts once the metrics q have been seen. */
  ghost function Pick(phys: Option<Metric>, logical: Option<Metric>, q: set<Metric>): Option<Metric> {
    if phys.Some? && phys.value in q then phys
    else if logical.Some? && logical.value in q then logical
    else None
  }

  lemma PreferredIsPick(handler: Metric -> Handling, p: Option<Metric>, l: Option<Metric>, c: Choice)
    requires Handles(handler, p, l) && Preferred(handler, c)
    ensures c.metric == Pick(p, l, c.queried)
  {
  }

  // ----- Summing up the entry calls

  /** One entry scope of one reconstruction, with the context that stands for it. */
  datatype Visit = Visit(entry: Scope, ctx: Ctx)

  function KeysAt(data: Data, c: Ctx): set<Metric> {
    if c in data then data[c].Keys else {}
  }

  ghost function Seen(data: Data, vs: seq<Visit>): set<Metric> {
    if vs == [] then {} else Seen(data, vs[..|vs| - 1]) + KeysAt(data, vs[|vs| - 1].ctx)
  }

  ghost function AtOpt(data: Data, c: Ctx, m: Option<Metric>): real {
    if m.Some? then At(data, c, m.value) else 0.0
  }

  /** What the code adds up for entry s: at every visit it uses the metric chosen
    by then. */
  ghost function Tally(p: Option<Metric>, l: Option<Metric>, data: Data, vs: seq<Visit>, s: Scope): real {
    if vs == [] then 0.0
    else
      var v := vs[|vs| - 1];
      Tally(p, l, data, vs[..|vs| - 1], s)
      + if v.entry == s then AtOpt(data, v.ctx, Pick(p, l, Seen(data, vs))) else 0.0
  }

  /** The calls of entry s counted by one metric. */
  ghost function SumAt(data: Data, vs: seq<Visit>, s: Scope, m: Option<Metric>): real {
    if vs == [] then 0.0
    else
      var v := vs[|vs| - 1];
      SumAt(data, vs[..|vs| - 1], s, m) + if v.entry == s then AtOpt(data, v.ctx, m) else 0.0
  }

  lemma {:induction false} SeenHas(data: Data, vs: seq<Visit>, v: Visit)
    requires v in vs
    ensures KeysAt(data, v.ctx) <= Seen(data, vs)
  {
    if v != vs[|vs| - 1] {
      SeenHas(data, vs[..|vs| - 1], v);
    }
  }

  lemma {:induction false} SeenGrows(data: Data, vs: seq<Visit>, n: nat)
    requires n <= |vs|
    ensures Seen(data, vs[..n]) <= Seen(data, vs)
  {
    if n == |vs| {
      assert vs[..n] == vs;
    } else {
      assert vs[..|vs| - 1][..n] == vs[..n];
      SeenGrows(data, vs[..|vs| - 1], n);
    }
  }

  function TotalAt(totals: map<Scope, real>, s: Scope): real {
    if s in totals then totals[s] else 0.0
  }

  /** One visit of the first loop nest: the choice may change, and the metric chosen by
    now is added up. */
  method CountVisit(handler: Metric -> Handling, data: Data, v: Visit, c: Choice, totals: map<Scope, real>)
    returns (c': Choice, totals': map<Scope, real>, fatal: bool)
    requires Preferred(handler, c)
    ensures fatal ==> var q := c.queried + KeysAt(data, v.ctx); Clash(handler, q, false) || Clash(handler, q, true)
    ensures !fatal ==>
              && Preferred(handler, c') && c'.queried == c.queried + KeysAt(data, v.ctx)
              && (c'.metric == c.metric || (c'.metric.Some? && c'.metric.value !in c.queried))
              && (forall s :: TotalAt(totals', s) ==
                              TotalAt(totals, s) + if s == v.entry then AtOpt(data, v.ctx, c'.metric) else 0.0)
              && totals.Keys <= totals'.Keys
              && (c'.metric.Some? && c'.metric.value in KeysAt(data, v.ctx) ==> v.entry in totals')
  {
    c', totals', fatal := c, totals, false;
    if v.ctx in data {
      c', fatal := Query(handler, data[v.ctx], c);
      if !fatal && c'.metric.Some? && c'.metric.value in data[v.ctx] {
        totals' := totals[v.entry := TotalAt(totals, v.entry) + data[v.ctx][c'.metric.value]];
      }
    }
  }

  /** Every visit so far that has the chosen metric has a total. */
  ghost predicate AllCounted(data: Data, vs: seq<Visit>, metric: Option<Metric>, totals: map<Scope, real>) {
    metric.Some? ==> forall v :: v in vs && metric.value in KeysAt(data, v.ctx) ==> v.entry in totals
  }

  lemma CountedStays(data: Data, vs: seq<Visit>, v: Visit, before: Choice, after: Choice, totals: map<Scope, real>,
                     totals': map<Scope, real>)
    requires AllCounted(data, vs, before.metric, totals) && before.queried == Seen(data, vs)
    requires after.metric == before.metric || (after.metric.Some? && after.metric.value !in before.queried)
    requires totals.Keys <= totals'.Keys
    requires after.metric.Some? && after.metric.value in KeysAt(data, v.ctx) ==> v.entry in totals'
    ensures AllCounted(data, vs + [v], after.metric, totals')
  {
    forall w | w in vs
      ensures KeysAt(data, w.ctx) <= before.queried
    {
      SeenHas(data, vs, w);
    }
  }

  /** First loop nest: choose the metric while summing the denominators. */
  method EntryTotals(handler: Metric -> Handling, data: Data, vs: seq<Visit>)
    returns (totals: map<Scope, real>, metric: Option<Metric>, fatal: bool)
    ensures fatal ==> Clash(handler, Seen(data, vs), false) || Clash(handler, Seen(data, vs), true)
    ensures SureClash(handler, Seen(data, vs)) ==> fatal
    ensures !fatal ==>
              forall p, l :: Handles(handler, p, l) ==>
                               && metric == Pick(p, l, Seen(data, vs))
                               && forall s :: Tally(p, l, data, vs, s) == TotalAt(totals, s)
    ensures !fatal ==> AllCounted(data, vs, metric, totals)
  {
    totals := map[];
    var c := Choice({}, None, false);
    for i := 0 to |vs|
      invariant Preferred(handler, c) && c.queried == Seen(data, vs[..i])
      invariant forall p, l :: Handles(handler, p, l) ==> forall s :: Tally(p, l, data, vs[..i], s) == TotalAt(totals, s)
      invariant AllCounted(data, vs[..i], c.metric, totals)
    {
      assert vs[..i + 1] == vs[..i] + [vs[i]] && vs[..i + 1][..i] == vs[..i];
      ghost var before, sums := c, totals;
      c, totals, fatal := CountVisit(handler, data, vs[i], c, totals);
      if fatal {
        SeenGrows(data, vs, i + 1);
        return totals, c.metric, true;
      }
      CountedStays(data, vs[..i], vs[i], before, c, sums, totals);
      forall p, l | Handles(handler, p, l)
        ensures c.metric == Pick(p, l, c.queried)
      {
        PreferredIsPick(handler, p, l, c);
      }
    }
    assert vs[..|vs|] == vs;
    forall p, l | Handles(handler, p, l)
      ensures c.metric == Pick(p, l, c.queried)
    {
      PreferredIsPick(handler, p, l, c);
    }
    return totals, c.metric, false;
  }

  lemma HandledIsClear(handler: Metric -> Handling, p: Option<Metric>, l: Option<Metric>, q: set<Metric>)
    requires Handles(handler, p, l)
    ensures !Clash(handler, q, false) && !Clash(handler, q, true)
  {
  }

  // ----- When the totals are the calls of one metric

  ghost predicate NonNegative(data: Data) {
    forall c, m :: c in data && m in data[c] ==> data[c][m] >= 0.0
  }

  /** Logical calls of entry s that were counted before physical calls showed up. */
  ghost function Early(p: Metric, l: Option<Metric>, data: Data, vs: seq<Visit>, s: Scope): real {
    if vs == [] then 0.0
    else
      var v := vs[|vs| - 1];
      Early(p, l, data, vs[..|vs| - 1], s)
      + if v.entry == s && p !in Seen(data, vs) then AtOpt(data, v.ctx, l) else 0.0
  }

  lemma {:induction false} TallySplits(p: Metric, l: Option<Metric>, data: Data, vs: seq<Visit>, s: Scope)
    ensures Tally(Some(p), l, data, vs, s) == SumAt(data, vs, s, Some(p)) + Early(p, l, data, vs, s)
  {
    if vs != [] {
      TallySplits(p, l, data, vs[..|vs| - 1], s);
    }
  }

  lemma {:induction false} TallyLogical(l: Option<Metric>, data: Data, vs: seq<Visit>, s: Scope)
    ensures Tally(None, l, data, vs, s) == SumAt(data, vs, s, l)
  {
    if vs != [] {
      TallyLogical(l, data, vs[..|vs| - 1], s);
    }
  }

  /** No logical call is counted before a later visit brings in physical calls. */
  ghost predicate NoLateSwitch(p: Metric, l: Option<Metric>, data: Data, vs: seq<Visit>) {
    forall i :: 0 <= i < |vs| && p !in Seen(data, vs[..i + 1]) ==> AtOpt(data, vs[i].ctx, l) == 0.0
  }

  lemma {:induction false} EarlyNonNeg(p: Metric, l: Option<Metric>, data: Data, vs: seq<Visit>, s: Scope)
    requires NonNegative(data)
    ensures Early(p, l, data, vs, s) >= 0.0
    ensures forall i :: 0 <= i < |vs| && p !in Seen(data, vs[..i + 1]) && vs[i].entry == s ==>
                          AtOpt(data, vs[i].ctx, l) <= Early(p, l, data, vs, s)
  {
    if vs != [] {
      var n := |vs| - 1;
      EarlyNonNeg(p, l, data, vs[..n], s);
      assert vs[..n + 1] == vs;
      forall i | 0 <= i < |vs| && p !in Seen(data, vs[..i + 1]) && vs[i].entry == s
        ensures AtOpt(data, vs[i].ctx, l) <= Early(p, l, data, vs, s)
      {
        if i < n { assert vs[..n][..i + 1] == vs[..i + 1]; }
      }
    }
  }

  lemma {:induction false} EarlyIsNone(p: Metric, l: Option<Metric>, data: Data, vs: seq<Visit>, s: Scope)
    requires NoLateSwitch(p, l, data, vs)
    ensures Early(p, l, data, vs, s) == 0.0
  {
    if vs != [] {
      var n := |vs| - 1;
      forall i | 0 <= i < n && p !in Seen(data, vs[..n][..i + 1])
        ensures AtOpt(data, vs[..n][i].ctx, l) == 0.0
      {
        assert vs[..n][..i + 1] == vs[..i + 1];
      }
      EarlyIsNone(p, l, data, vs[..n], s);
      assert vs[..n + 1] == vs;
    }
  }

  /** The denominators are the physical calls exactly when the choice of metric
    never changes after something was counted. */
  lemma TotalsExactIff(p: Metric, l: Option<Metric>, data: Data, vs: seq<Visit>)
    requires NonNegative(data) && p in Seen(data, vs)
    ensures (forall s :: Tally(Some(p), l, data, vs, s) == SumAt(data, vs, s, Some(p))) <==>
            NoLateSwitch(p, l, data, vs)
  {
    forall s
      ensures Tally(Some(p), l, data, vs, s) == SumAt(data, vs, s, Some(p)) + Early(p, l, data, vs, s)
    {
      TallySplits(p, l, data, vs, s);
    }
    if NoLateSwitch(p, l, data, vs) {
      forall s { EarlyIsNone(p, l, data, vs, s); }
    } else {
      var i :| 0 <= i < |vs| && p !in Seen(data, vs[..i + 1]) && AtOpt(data, vs[i].ctx, l) != 0.0;
      EarlyNonNeg(p, l, data, vs, vs[i].entry);
      assert Tally(Some(p), l, data, vs, vs[i].entry) != SumAt(data, vs, vs[i].entry, Some(p));
    }
  }

  /** Two visits of one entry: the first has 3 logical calls, the second 4 physical
    ones, and the code divides by 7. */
  lemma LateSwitchExample()
    ensures var data: Data := map[0 := map[1 := 3.0], 1 := map[0 := 4.0]];
            var vs := [Visit(9, 0), Visit(9, 1)];
            && Tally(Some(0), Some(1), data, vs, 9) == 7.0
            && SumAt(data, vs, 9, Some(0)) == 4.0
  {
    var data: Data := map[0 := map[1 := 3.0], 1 := map[0 := 4.0]];
    var vs := [Visit(9, 0), Visit(9, 1)];
    assert vs[..1] == [Visit(9, 0)];
    assert [Visit(9, 0)][..0] == [];
    assert Seen(data, [Visit(9, 0)]) == {1};
    assert Seen(data, vs) == {0, 1};
  }
}
