/** `ContextReconstruction::rescalingFactors`: how many calls there were for each call
  that was sampled, entry by entry. */
module Rescaling {
  import opened Common
  import opened Paths
  import opened ExteriorFactors
  import opened Redistribution

  // ----- The metrics that count calls

  datatype Roles = Roles(queried: set<Metric>, phys: Option<Metric>, logical: Option<Metric>, logicalIsExterior: bool)

  /** Both metrics count logical calls, or both only physical ones. */
  ghost predicate SameRole(handler: Metric -> Handling, a: Metric, b: Metric) {
    if handler(a).exteriorLogical then handler(b).exteriorLogical
    else handler(a).exterior && handler(b).exterior && !handler(b).exteriorLogical
  }

  /** Two of the metrics claim the same role. */
  ghost predicate RoleClash(handler: Metric -> Handling, q: set<Metric>) {
    exists a, b :: a in q && b in q && a != b && SameRole(handler, a, b)
  }

  ghost predicate RolesOk(handler: Metric -> Handling, c: Roles) {
    && (c.phys.Some? ==>
          var h := handler(c.phys.value);
          c.phys.value in c.queried && h.exterior && !h.exteriorLogical)
    && (c.logical.Some? ==>
          var h := handler(c.logical.value);
          c.logical.value in c.queried && h.exteriorLogical && h.exterior == c.logicalIsExterior)
    && (c.logical.None? ==> !c.logicalIsExterior)
    && (forall m :: m in c.queried && handler(m).exteriorLogical ==> c.logical == Some(m))
    && (forall m :: m in c.queried && handler(m).exterior && !handler(m).exteriorLogical ==> c.phys == Some(m))
  }

  /** At most one metric per role. */
  ghost predicate OnePerRole(handler: Metric -> Handling, p: Option<Metric>, l: Option<Metric>) {
    && (forall m: Metric :: handler(m).exterior && !handler(m).exteriorLogical <==> p == Some(m))
    && (forall m: Metric :: handler(m).exteriorLogical <==> l == Some(m))
  }

  /** Look at all metrics of one entry, in any order. Fails exactly when two of the
    metrics seen so far have the same role. */
  method QueryRoles(handler: Metric -> Handling, values: Values, c: Roles) returns (c': Roles, fatal: bool)
    requires RolesOk(handler, c)
    ensures fatal <==> RoleClash(handler, c.queried + values.Keys)
    ensures !fatal ==> c'.queried == c.queried + values.Keys && RolesOk(handler, c')
  {
    c' := c;
    var todo := values.Keys;
    while todo != {}
      invariant todo <= values.Keys
      invariant c'.queried == c.queried + (values.Keys - todo)
      invariant RolesOk(handler, c')
    {
      var m: Metric :| m in todo;
      todo := todo - {m};
      if m !in c'.queried {
        var h := handler(m);
        if h.exteriorLogical {
          if c'.logical.Some? {
            assert SameRole(handler, m, c'.logical.value);
            return c', true;
          }
          c' := c'.(logical := Some(m), logicalIsExterior := h.exterior);
        } else if h.exterior {
          if c'.phys.Some? {
            assert SameRole(handler, m, c'.phys.value);
            return c', true;
          }
          c' := c'.(phys := Some(m));
        }
      }
      c' := c'.(queried := c'.queried + {m});
      assert c'.queried == c.queried + (values.Keys - todo);
    }
    return c', false;
  }

  lemma NoClash(handler: Metric -> Handling, p: Option<Metric>, l: Option<Metric>, q: set<Metric>)
    requires OnePerRole(handler, p, l)
    ensures !RoleClash(handler, q)
  {
  }

  // ----- One reconstruction's entries

  datatype RescaleStatus = Done | NoCallMetric | MissingValue

  /** Entry i is the first one with data, and none of its metrics counts calls. */
  ghost predicate FirstUncounted(handler: Metric -> Handling, sums: Data, vs: seq<Visit>, i: int) {
    && 0 <= i < |vs| && vs[i].ctx in sums
    && (forall m :: m in sums[vs[i].ctx] ==> !handler(m).exterior)
    && (forall j :: 0 <= j < i ==> vs[j].ctx !in sums)
  }

  ghost predicate LacksCounter(handler: Metric -> Handling, sums: Data, vs: seq<Visit>) {
    exists i :: FirstUncounted(handler, sums, vs, i)
  }

  /** By entry i, both kinds of calls have been seen. */
  ghost predicate BothSeen(sums: Data, vs: seq<Visit>, i: nat, p: Option<Metric>, l: Option<Metric>)
    requires i < |vs|
  {
    p.Some? && l.Some? && p.value in Seen(sums, vs[..i + 1]) && l.value in Seen(sums, vs[..i + 1])
  }

  /** Entry i has data and is to be rescaled, but lacks one of the two counts. */
  ghost predicate LacksValue(sums: Data, vs: seq<Visit>, i: int, p: Option<Metric>, l: Option<Metric>) {
    && 0 <= i < |vs| && vs[i].ctx in sums && BothSeen(sums, vs, i, p, l)
    && !(p.value in sums[vs[i].ctx] && l.value in sums[vs[i].ctx])
  }

  /** How the source ends: it looks only at metrics met so far, gives up when the first
    entry with data has none that counts calls, and cannot divide when an entry lacks
    one of two call metrics. */
  ghost function RescaleResult(handler: Metric -> Handling, sums: Data, vs: seq<Visit>,
                               p: Option<Metric>, l: Option<Metric>): RescaleStatus
  {
    if LacksCounter(handler, sums, vs) then NoCallMetric
    else if exists i :: LacksValue(sums, vs, i, p, l) then MissingValue
    else Done
  }

  /** Logical calls per physical call; 1 as long as only one kind has been seen. */
  ghost function RescaleAt(sums: Data, vs: seq<Visit>, i: nat, p: Option<Metric>, l: Option<Metric>): Quotient
    requires i < |vs| && vs[i].ctx in sums
  {
    if BothSeen(sums, vs, i, p, l)
    then Divide(Val(sums[vs[i].ctx], l.value), Val(sums[vs[i].ctx], p.value))
    else Num(1.0)
  }

  ghost predicate FactorOk(sums: Data, vs: seq<Visit>, j: nat, factors: map<Scope, Quotient>, p: Option<Metric>, l: Option<Metric>)
    requires j < |vs|
  {
    if vs[j].ctx in sums
    then vs[j].entry in factors && factors[vs[j].entry] == RescaleAt(sums, vs, j, p, l)
    else vs[j].entry !in factors
  }

  ghost predicate EntryFactors(sums: Data, vs: seq<Visit>, n: nat, factors: map<Scope, Quotient>,
                               p: Option<Metric>, l: Option<Metric>)
    requires n <= |vs|
  {
    && (forall j :: 0 <= j < n ==> FactorOk(sums, vs, j, factors, p, l))
    && (forall s :: s in factors ==> exists j :: 0 <= j < n && vs[j].entry == s)
  }

  /** Some of the metrics counts calls. */
  ghost predicate Counted(handler: Metric -> Handling, q: set<Metric>) {
    exists m :: m in q && handler(m).exterior
  }

  /** The roles known once the metrics q have been seen. */
  lemma RolesSeen(handler: Metric -> Handling, p: Option<Metric>, l: Option<Metric>, c: Roles)
    requires OnePerRole(handler, p, l) && RolesOk(handler, c)
    ensures c.phys == if p.Some? && p.value in c.queried then p else None
    ensures c.logical == if l.Some? && l.value in c.queried then l else None
    ensures (c.phys.Some? || c.logicalIsExterior) <==> Counted(handler, c.queried)
  {
  }

  lemma {:induction false} SeenNone(sums: Data, vs: seq<Visit>)
    requires forall j :: 0 <= j < |vs| ==> vs[j].ctx !in sums
    ensures Seen(sums, vs) == {}
  {
    if vs != [] { SeenNone(sums, vs[..|vs| - 1]); }
  }

  /** Once a metric that counts calls has been seen, entry i is not where it stops. */
  lemma CountedHere(handler: Metric -> Handling, sums: Data, vs: seq<Visit>, i: nat)
    requires i < |vs| && vs[i].ctx in sums && Counted(handler, Seen(sums, vs[..i + 1]))
    ensures !FirstUncounted(handler, sums, vs, i)
  {
    assert vs[..i + 1][..i] == vs[..i] && vs[..i + 1][i] == vs[i];
    if forall j :: 0 <= j < i ==> vs[j].ctx !in sums { SeenNone(sums, vs[..i]); }
  }

  /** One entry with data. */
  method RescaleEntry(handler: Metric -> Handling, sums: Data, vs: seq<Visit>, i: nat, c: Roles,
                      ghost p: Option<Metric>, ghost l: Option<Metric>)
    returns (c': Roles, factor: Quotient, status: RescaleStatus)
    requires OnePerRole(handler, p, l) && i < |vs| && vs[i].ctx in sums
    requires RolesOk(handler, c) && c.queried == Seen(sums, vs[..i])
    ensures RolesOk(handler, c') && c'.queried == Seen(sums, vs[..i + 1])
    ensures status.NoCallMetric? <==> !Counted(handler, c'.queried)
    ensures !status.NoCallMetric? ==> (status.MissingValue? <==> LacksValue(sums, vs, i, p, l))
    ensures status.Done? ==> factor == RescaleAt(sums, vs, i, p, l)
  {
    var values := sums[vs[i].ctx];
    assert vs[..i + 1][..i] == vs[..i] && vs[..i + 1][i] == vs[i];
    NoClash(handler, p, l, c.queried + values.Keys);
    var fatal;
    c', fatal := QueryRoles(handler, values, c);
    RolesSeen(handler, p, l, c');
    if c'.phys.None? && !c'.logicalIsExterior {
      return c', NaN, NoCallMetric;
    }
    if c'.phys.None? || c'.logical.None? {
      return c', Num(1.0), Done;
    }
    if c'.logical.value in values && c'.phys.value in values {
      return c', Divide(values[c'.logical.value], values[c'.phys.value]), Done;
    }
    return c', NaN, MissingValue;
  }

  lemma FactorsGrow(sums: Data, vs: seq<Visit>, i: nat, factors: map<Scope, Quotient>, p: Option<Metric>, l: Option<Metric>)
    requires i < |vs| && EntryFactors(sums, vs, i, factors, p, l) && OwnEntries(vs)
    ensures vs[i].ctx in sums ==>
              EntryFactors(sums, vs, i + 1, factors[vs[i].entry := RescaleAt(sums, vs, i, p, l)], p, l)
    ensures vs[i].ctx !in sums ==> EntryFactors(sums, vs, i + 1, factors, p, l)
  {
    var more := if vs[i].ctx in sums then factors[vs[i].entry := RescaleAt(sums, vs, i, p, l)] else factors;
    forall j: nat | j < i + 1
      ensures FactorOk(sums, vs, j, more, p, l)
    {
      if j < i { assert FactorOk(sums, vs, j, factors, p, l) && vs[j].entry != vs[i].entry; }
    }
    forall s | s in more
      ensures exists j :: 0 <= j < i + 1 && vs[j].entry == s
    {
      if s in factors {
        var j :| 0 <= j < i && vs[j].entry == s;
        assert j < i + 1;
      }
    }
  }

  /** None of the first n entries stops it. */
  ghost predicate NoStop(handler: Metric -> Handling, sums: Data, vs: seq<Visit>, n: nat, p: Option<Metric>, l: Option<Metric>) {
    forall j :: 0 <= j < n ==> !FirstUncounted(handler, sums, vs, j) && !LacksValue(sums, vs, j, p, l)
  }

  ghost predicate HasData(sums: Data, vs: seq<Visit>, n: nat)
    requires n <= |vs|
  {
    exists j :: 0 <= j < n && vs[j].ctx in sums
  }

  /** It stops at the first entry with data, because nothing there counts calls. */
  lemma StopsUncounted(handler: Metric -> Handling, sums: Data, vs: seq<Visit>, i: nat, p: Option<Metric>, l: Option<Metric>)
    requires i < |vs| && vs[i].ctx in sums && !HasData(sums, vs, i) && !Counted(handler, Seen(sums, vs[..i + 1]))
    ensures RescaleResult(handler, sums, vs, p, l) == NoCallMetric
  {
    assert vs[..i + 1][i] == vs[i];
    SeenHas(sums, vs[..i + 1], vs[i]);
    assert FirstUncounted(handler, sums, vs, i);
  }

  lemma StopsMissing(handler: Metric -> Handling, sums: Data, vs: seq<Visit>, i: nat, p: Option<Metric>, l: Option<Metric>)
    requires i < |vs| && NoStop(handler, sums, vs, i, p, l) && Counted(handler, Seen(sums, vs[..i + 1])) && LacksValue(sums, vs, i, p, l)
    ensures RescaleResult(handler, sums, vs, p, l) == MissingValue
  {
    CountedHere(handler, sums, vs, i);
    assert forall j :: !FirstUncounted(handler, sums, vs, j);
  }

  lemma GoesOn(handler: Metric -> Handling, sums: Data, vs: seq<Visit>, i: nat, p: Option<Metric>, l: Option<Metric>)
    requires i < |vs| && NoStop(handler, sums, vs, i, p, l)
    requires vs[i].ctx in sums ==> Counted(handler, Seen(sums, vs[..i + 1])) && !LacksValue(sums, vs, i, p, l)
    ensures NoStop(handler, sums, vs, i + 1, p, l)
  {
    if vs[i].ctx in sums { CountedHere(handler, sums, vs, i); }
  }

  lemma CountedStaysCounted(handler: Metric -> Handling, sums: Data, vs: seq<Visit>, i: nat)
    requires i < |vs| && Counted(handler, Seen(sums, vs[..i]))
    ensures Counted(handler, Seen(sums, vs[..i + 1]))
  {
    assert vs[..i + 1][..i] == vs[..i];
  }

  /** The state before entry i. */
  ghost predicate Going(handler: Metric -> Handling, sums: Data, vs: seq<Visit>, i: nat, c: Roles, factors: map<Scope, Quotient>,
                        p: Option<Metric>, l: Option<Metric>)
  {
    && i <= |vs| && RolesOk(handler, c) && c.queried == Seen(sums, vs[..i])
    && (HasData(sums, vs, i) ==> Counted(handler, c.queried))
    && NoStop(handler, sums, vs, i, p, l) && EntryFactors(sums, vs, i, factors, p, l)
  }

  ghost predicate OwnEntries(vs: seq<Visit>) {
    forall i, j :: 0 <= i < j < |vs| ==> vs[i].entry != vs[j].entry
  }

  lemma SkipEntry(handler: Metric -> Handling, sums: Data, vs: seq<Visit>, i: nat, c: Roles, factors: map<Scope, Quotient>,
                  p: Option<Metric>, l: Option<Metric>)
    requires Going(handler, sums, vs, i, c, factors, p, l) && OwnEntries(vs) && i < |vs| && vs[i].ctx !in sums
    ensures Going(handler, sums, vs, i + 1, c, factors, p, l)
  {
    assert vs[..i + 1][..i] == vs[..i] && vs[..i + 1][i] == vs[i];
    FactorsGrow(sums, vs, i, factors, p, l);
    GoesOn(handler, sums, vs, i, p, l);
  }

  lemma TakeEntry(handler: Metric -> Handling, sums: Data, vs: seq<Visit>, i: nat, c: Roles, factors: map<Scope, Quotient>,
                  c': Roles, p: Option<Metric>, l: Option<Metric>)
    requires Going(handler, sums, vs, i, c, factors, p, l) && OwnEntries(vs) && i < |vs| && vs[i].ctx in sums
    requires RolesOk(handler, c') && c'.queried == Seen(sums, vs[..i + 1]) && Counted(handler, c'.queried)
    requires !LacksValue(sums, vs, i, p, l)
    ensures Going(handler, sums, vs, i + 1, c', factors[vs[i].entry := RescaleAt(sums, vs, i, p, l)], p, l)
  {
    FactorsGrow(sums, vs, i, factors, p, l);
    GoesOn(handler, sums, vs, i, p, l);
  }

  lemma StopsHere(handler: Metric -> Handling, sums: Data, vs: seq<Visit>, i: nat, c: Roles, factors: map<Scope, Quotient>,
                  p: Option<Metric>, l: Option<Metric>)
    requires Going(handler, sums, vs, i, c, factors, p, l) && i < |vs| && vs[i].ctx in sums
    ensures !Counted(handler, Seen(sums, vs[..i + 1])) ==> RescaleResult(handler, sums, vs, p, l) == NoCallMetric
    ensures Counted(handler, Seen(sums, vs[..i + 1])) && LacksValue(sums, vs, i, p, l) ==>
              RescaleResult(handler, sums, vs, p, l) == MissingValue
  {
    if !Counted(handler, Seen(sums, vs[..i + 1])) {
      if HasData(sums, vs, i) { CountedStaysCounted(handler, sums, vs, i); }
      StopsUncounted(handler, sums, vs, i, p, l);
    } else if LacksValue(sums, vs, i, p, l) {
      StopsMissing(handler, sums, vs, i, p, l);
    }
  }

  lemma NeverStops(handler: Metric -> Handling, sums: Data, vs: seq<Visit>, p: Option<Metric>, l: Option<Metric>)
    requires NoStop(handler, sums, vs, |vs|, p, l)
    ensures RescaleResult(handler, sums, vs, p, l) == Done
  {
  }

  /** The factor of every entry that has data. */
  method EntryRescale(handler: Metric -> Handling, sums: Data, vs: seq<Visit>, ghost p: Option<Metric>, ghost l: Option<Metric>)
    returns (factors: map<Scope, Quotient>, status: RescaleStatus)
    requires OnePerRole(handler, p, l) && OwnEntries(vs)
    ensures status == RescaleResult(handler, sums, vs, p, l)
    ensures status.Done? ==> EntryFactors(sums, vs, |vs|, factors, p, l)
  {
    factors := map[];
    var c := Roles({}, None, None, false);
    for i := 0 to |vs|
      invariant Going(handler, sums, vs, i, c, factors, p, l)
    {
      if vs[i].ctx in sums {
        StopsHere(handler, sums, vs, i, c, factors, p, l);
        ghost var before := c;
        var factor;
        c, factor, status := RescaleEntry(handler, sums, vs, i, c, p, l);
        if !status.Done? { return; }
        TakeEntry(handler, sums, vs, i, before, factors, c, p, l);
        factors := factors[vs[i].entry := factor];
      } else {
        SkipEntry(handler, sums, vs, i, c, factors, p, l);
      }
    }
    NeverStops(handler, sums, vs, p, l);
    return factors, Done;
  }

  /** Where the entry is visited. */
  ghost function PositionOf(r: Reconstruction, s: Scope): (x: nat)
    requires s in r.order
    ensures x < |r.order| && r.order[x] == s
  {
    var x: nat :| x < |r.order| && r.order[x] == s;
    x
  }

  /** The factor of a template: that of its entry, and nothing without data. */
  ghost function TemplateRescale(t: Template, r: Reconstruction, sums: Data, p: Option<Metric>, l: Option<Metric>): Quotient
    requires t.entry in r.order && forall s :: s in r.order ==> s in r.entries
  {
    if r.entries[t.entry] in sums then RescaleAt(sums, VisitsOf(r), PositionOf(r, t.entry), p, l) else Num(0.0)
  }

  /** Expand the entry factors to one per template of a reconstruction. */
  method RescalingFactors(handler: Metric -> Handling, ts: seq<Template>, r: Reconstruction, sums: Data,
                          ghost p: Option<Metric>, ghost l: Option<Metric>)
    returns (out: seq<Quotient>, hasEC: seq<bool>, status: RescaleStatus)
    requires Instantiated(ts, r) && OnePerRole(handler, p, l)
    ensures |out| == |hasEC| == |ts|
    ensures status == RescaleResult(handler, sums, VisitsOf(r), p, l)
    ensures status.Done? ==>
              forall i :: 0 <= i < |ts| ==>
                            out[i] == TemplateRescale(ts[i], r, sums, p, l) && hasEC[i] == (out[i] != Num(0.0))
  {
    var vs := VisitsOf(r);
    var factors;
    factors, status := EntryRescale(handler, sums, vs, p, l);
    out, hasEC := [], [];
    for i := 0 to |ts|
      invariant |out| == |hasEC| == i
      invariant forall j :: 0 <= j < i ==> out[j] == if ts[j].entry in factors then factors[ts[j].entry] else Num(0.0)
      invariant forall j :: 0 <= j < i ==> hasEC[j] == (out[j] != Num(0.0))
    {
      var s := ts[i].entry;
      out := out + [if s in factors then factors[s] else Num(0.0)];
      hasEC := hasEC + [s in factors && factors[s] != Num(0.0)];
    }
    forall i | 0 <= i < |ts| && EntryFactors(sums, vs, |vs|, factors, p, l)
      ensures out[i] == TemplateRescale(ts[i], r, sums, p, l)
    {
      TemplateFactor(ts[i], r, sums, factors, p, l);
    }
  }

  lemma TemplateFactor(t: Template, r: Reconstruction, sums: Data, factors: map<Scope, Quotient>, p: Option<Metric>, l: Option<Metric>)
    requires t.entry in r.order && forall s :: s in r.order ==> s in r.entries
    requires EntryFactors(sums, VisitsOf(r), |VisitsOf(r)|, factors, p, l)
    ensures TemplateRescale(t, r, sums, p, l) == if t.entry in factors then factors[t.entry] else Num(0.0)
  {
    var x := PositionOf(r, t.entry);
    assert VisitsOf(r)[x] == Visit(t.entry, r.entries[t.entry]);
    assert FactorOk(sums, VisitsOf(r), x, factors, p, l);
  }

  // ----- Two ways to be sure

  /** With one call metric nothing is rescaled, and only the first entry with data can
    stop it. */
  lemma OneMetricRescale(handler: Metric -> Handling, ts: seq<Template>, r: Reconstruction, sums: Data,
                         p: Option<Metric>, l: Option<Metric>)
    requires Instantiated(ts, r) && (p.None? || l.None?)
    ensures RescaleResult(handler, sums, VisitsOf(r), p, l).Done? <==> !LacksCounter(handler, sums, VisitsOf(r))
    ensures forall i :: 0 <= i < |ts| ==>
                          TemplateRescale(ts[i], r, sums, p, l) == Num(if r.entries[ts[i].entry] in sums then 1.0 else 0.0)
  {
  }

  /** Every entry context with data holds all the call metrics there are. */
  ghost predicate Complete(sums: Data, vs: seq<Visit>, p: Option<Metric>, l: Option<Metric>) {
    forall i :: 0 <= i < |vs| && vs[i].ctx in sums ==>
                  && (p.Some? ==> p.value in sums[vs[i].ctx])
                  && (l.Some? ==> l.value in sums[vs[i].ctx])
  }

  /** Then every entry is rescaled by its own counts, and what stops it is only that
    there is no metric for calls at all. */
  lemma CompleteRescale(handler: Metric -> Handling, sums: Data, vs: seq<Visit>, p: Option<Metric>, l: Option<Metric>)
    requires OnePerRole(handler, p, l) && Complete(sums, vs, p, l)
    ensures RescaleResult(handler, sums, vs, p, l) ==
            if p.None? && (l.None? || !handler(l.value).exterior) && exists i :: 0 <= i < |vs| && vs[i].ctx in sums
            then NoCallMetric else Done
    ensures forall i :: 0 <= i < |vs| && vs[i].ctx in sums ==>
                          RescaleAt(sums, vs, i, p, l) ==
                          if p.Some? && l.Some? then Divide(Val(sums[vs[i].ctx], l.value), Val(sums[vs[i].ctx], p.value))
                          else Num(1.0)
  {
    forall i | 0 <= i < |vs| && vs[i].ctx in sums
      ensures p.Some? ==> p.value in Seen(sums, vs[..i + 1])
      ensures l.Some? ==> l.value in Seen(sums, vs[..i + 1])
    {
      assert vs[..i + 1][i] == vs[i];
      SeenHas(sums, vs[..i + 1], vs[i]);
    }
    if p.None? && (l.None? || !handler(l.value).exterior) && exists i :: 0 <= i < |vs| && vs[i].ctx in sums {
      var i := FirstData(sums, vs);
      assert FirstUncounted(handler, sums, vs, i);
    }
  }

  lemma FirstData(sums: Data, vs: seq<Visit>) returns (i: nat)
    requires exists j :: 0 <= j < |vs| && vs[j].ctx in sums
    ensures i < |vs| && vs[i].ctx in sums && forall j :: 0 <= j < i ==> vs[j].ctx !in sums
  {
    i := 0;
    while vs[i].ctx !in sums
      invariant i < |vs| && forall j :: 0 <= j < i ==> vs[j].ctx !in sums
      decreases |vs| - i
    {
      i := i + 1;
    }
  }
}
