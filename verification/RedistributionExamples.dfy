/** Inputs that show where redistribution stops, where it divides by zero, and that both
  depend on details. */
module RedistributionExamples {
  import opened Common
  import opened Paths
  import opened ExteriorFactors
  import opened Redistribution
  import opened Rescaling
  import opened FlowRedistribution
  import FlowGraph

  /** Metric 0 counts physical calls; no other metric counts calls. */
  function OneCounter(m: Metric): Handling {
    Handling(m == 0, false, false)
  }

  lemma OneCounterIsOne()
    ensures OneCallMetric(OneCounter) && Phys(OneCounter) == Some(0) && Logical(OneCounter) == None
  {
    assert Counts(OneCounter, 0, false);
  }

  /** One template, entered at scope 1. */
  const TS := [Template(1, [5])]

  /** A reconstruction whose entry is context c and whose template ends in context d. */
  function At1(c: Ctx, d: Ctx): Reconstruction {
    Reconstruction(map[1 := c], [1], [d])
  }

  function Flow1(rs: seq<Reconstruction>): FlowInput {
    FlowInput(OneCounter, TS, rs, {5}, map[], map[])
  }

  lemma Flow1Ok(rs: seq<Reconstruction>)
    requires forall k :: 0 <= k < |rs| ==> exists c, d :: rs[k] == At1(c, d)
    ensures FlowOk(Flow1(rs))
  {
    OneCounterIsOne();
    assert PathsOf(TS) == [[5]];
    assert TS[0].path == [5] && 5 in TS[0].path;
    assert FlowGraph.Calls(TS) == {5};
  }

  /** The visits of one or two such reconstructions. */
  lemma Visits1(c: Ctx, d: Ctx)
    ensures VisitsOf(At1(c, d)) == [Visit(1, c)]
    ensures AllVisits(TS, [At1(c, d)]) == [Visit(1, c)]
  {
    assert [At1(c, d)][..0] == [];
  }

  lemma SeenOne(data: Data, v: Visit)
    ensures Seen(data, [v]) == KeysAt(data, v.ctx)
  {
    assert [v][..0] == [];
  }

  /** What is chosen, and the total, for one reconstruction. */
  lemma OneVisit(data: Data, c: Ctx, d: Ctx)
    requires 0 in KeysAt(data, c)
    ensures var x := Flow1([At1(c, d)]);
            && AllInstantiated(x.ts, x.rs)
            && Chosen(x, data) == Some(0) && TotalFor(x, data, 1) == At(data, c, 0)
  {
    var x, vs := Flow1([At1(c, d)]), [Visit(1, c)];
    OneCounterIsOne();
    Visits1(c, d);
    SeenOne(data, vs[0]);
    assert AllVisits(x.ts, x.rs) == vs && vs[..0] == [];
    assert Pick(Some(0), None, Seen(data, vs)) == Some(0);
    assert Tally(Some(0), None, data, vs[..0], 1) == 0.0;
    assert Tally(Some(0), None, data, vs, 1) == At(data, c, 0);
  }

  /** With one template, no sibling's values are looked at. */
  lemma SingleGoesOn(x: FlowInput, data: Data, e: Metric)
    requires FlowOk(x) && |x.ts| == 1
    ensures !InteriorStops(x, data, e)
  {
  }

  lemma EndsNotANumber(x: FlowInput, data: Data, sums: Data, k: nat, i: nat)
    requires FlowOk(x) && OneCallMetric(x.handler) && Chosen(x, data).Some? && ZeroTotalAt(x, data, Chosen(x, data).value, k, i)
    requires |x.ts| == 1 && forall k: nat :: k < |x.rs| ==> !LacksCounter(x.handler, sums, VisitsOf(x.rs[k]))
    ensures FlowOutcome(x, data, sums) == NotANumber
  {
    SingleGoesOn(x, data, Chosen(x, data).value);
    OneMetricOutcome(x, data, sums);
  }

  lemma EndsWell(x: FlowInput, data: Data, sums: Data)
    requires FlowOk(x) && OneCallMetric(x.handler) && Chosen(x, data).Some? && !ZeroTotal(x, data, Chosen(x, data).value)
    requires |x.ts| == 1 && forall k: nat :: k < |x.rs| && HasRow(data, x.ts, x.rs[k], Chosen(x, data).value) ==>
                                !LacksCounter(x.handler, sums, VisitsOf(x.rs[k]))
    ensures FlowOutcome(x, data, sums) == Redistributed
  {
    SingleGoesOn(x, data, Chosen(x, data).value);
    if x.rs != [] { OneMetricOutcome(x, data, sums); }
  }

  /** An entry that has the call metric with value zero: the total is zero, and the factor
    is not a number. */
  lemma ZeroTotalExample()
    ensures var x, data: Data := Flow1([At1(1, 2)]), map[1 := map[0 := 0.0]];
            FlowOk(x) && FlowOutcome(x, data, data) == NotANumber
  {
    var x, data: Data := Flow1([At1(1, 2)]), map[1 := map[0 := 0.0]];
    OneCounterIsOne();
    Flow1Ok([At1(1, 2)]);
    OneVisit(data, 1, 2);
    Visits1(1, 2);
    assert ZeroTotalAt(x, data, 0, 0, 0);
    NotLacking(data, 1);
    EndsNotANumber(x, data, data, 0, 0);
  }

  /** A single visited entry that has the call metric. */
  lemma NotLacking(sums: Data, c: Ctx)
    requires 0 in KeysAt(sums, c)
    ensures !LacksCounter(OneCounter, sums, [Visit(1, c)])
  {
    assert OneCounter(0).exterior && 0 in sums[c];
  }

  /** The visits of two such reconstructions, of which only the first has calls. */
  lemma TwoVisits(data: Data, c: Ctx, d: Ctx, c': Ctx, d': Ctx)
    requires 0 in KeysAt(data, c) && c' !in data
    ensures var x := Flow1([At1(c, d), At1(c', d')]);
            && AllInstantiated(x.ts, x.rs)
            && Chosen(x, data) == Some(0) && TotalFor(x, data, 1) == At(data, c, 0)
  {
    OneCounterIsOne();
    VisitsOfTwo(c, d, c', d');
    SeenTwo(data, c, c');
  }

  lemma VisitsOfTwo(c: Ctx, d: Ctx, c': Ctx, d': Ctx)
    ensures AllVisits(TS, [At1(c, d), At1(c', d')]) == [Visit(1, c), Visit(1, c')]
  {
    var rs := [At1(c, d), At1(c', d')];
    Visits1(c, d);
    Visits1(c', d');
    assert rs[..1] == [At1(c, d)];
  }

  lemma SeenTwo(data: Data, c: Ctx, c': Ctx)
    requires 0 in KeysAt(data, c) && c' !in data
    ensures var vs := [Visit(1, c), Visit(1, c')];
            Pick(Some(0), None, Seen(data, vs)) == Some(0) && Tally(Some(0), None, data, vs, 1) == At(data, c, 0)
  {
    var vs := [Visit(1, c), Visit(1, c')];
    SeenOne(data, vs[0]);
    assert vs[..1] == [vs[0]] && vs[..1][..0] == [];
    assert Seen(data, vs) == Seen(data, vs[..1]) + {};
    assert Tally(Some(0), None, data, vs[..1], 1) == At(data, c, 0);
  }

  /** A reconstruction without calls in its group is left alone, even if rescaling it
    would stop: its data has no metric that counts calls. */
  lemma UnlistedIsLeftAlone(data: Data, sums: Data, c: Ctx, d: Ctx, c': Ctx, d': Ctx)
    requires At(data, c, 0) != 0.0 && c' !in data && 0 in KeysAt(sums, c)
    requires c' in sums && forall m :: m in sums[c'] ==> m != 0
    ensures FlowOk(Flow1([At1(c, d), At1(c', d')]))
    ensures FlowOutcome(Flow1([At1(c, d), At1(c', d')]), data, sums) == Redistributed
    ensures LacksCounter(OneCounter, sums, VisitsOf(At1(c', d')))
  {
    var r, r' := At1(c, d), At1(c', d');
    Flow1Ok([r, r']);
    OneCounterIsOne();
    TwoVisits(data, c, d, c', d');
    UnlistedLacks(sums, c', d');
    ListedHas(sums, c, d);
    NoRow(data, c', d');
    NoZeroTotal(Flow1([r, r']), data);
    FirstDecides(Flow1([r, r']), r, r', data, sums);
  }

  lemma UnlistedLacks(sums: Data, c: Ctx, d: Ctx)
    requires c in sums && forall m :: m in sums[c] ==> m != 0
    ensures LacksCounter(OneCounter, sums, VisitsOf(At1(c, d)))
  {
    Visits1(c, d);
    assert FirstUncounted(OneCounter, sums, VisitsOf(At1(c, d)), 0);
  }

  lemma ListedHas(sums: Data, c: Ctx, d: Ctx)
    requires 0 in KeysAt(sums, c)
    ensures !LacksCounter(OneCounter, sums, VisitsOf(At1(c, d)))
  {
    Visits1(c, d);
    NotLacking(sums, c);
  }

  /** Of two reconstructions, only the one with factors decides. */
  lemma FirstDecides(x: FlowInput, r: Reconstruction, r': Reconstruction, data: Data, sums: Data)
    requires x.rs == [r, r'] && FlowOk(x) && OneCallMetric(x.handler) && Chosen(x, data).Some?
    requires |x.ts| == 1 && !ZeroTotal(x, data, Chosen(x, data).value)
    requires Instantiated(x.ts, r) && !LacksCounter(x.handler, sums, VisitsOf(r))
    requires Instantiated(x.ts, r') && !HasRow(data, x.ts, r', Chosen(x, data).value)
    ensures FlowOutcome(x, data, sums) == Redistributed
  {
    EndsWell(x, data, sums);
  }

  lemma UnlistedExample()
    ensures var x := Flow1([At1(1, 2), At1(3, 4)]);
            FlowOk(x) && FlowOutcome(x, map[1 := map[0 := 4.0]], map[1 := map[0 := 4.0], 3 := map[7 := 1.0]]) == Redistributed
  {
    UnlistedIsLeftAlone(map[1 := map[0 := 4.0]], map[1 := map[0 := 4.0], 3 := map[7 := 1.0]], 1, 2, 3, 4);
  }

  lemma NoRow(data: Data, c: Ctx, d: Ctx)
    requires c !in data
    ensures !HasRow(data, TS, At1(c, d), 0)
  {
  }

  lemma NoZeroTotal(x: FlowInput, data: Data)
    requires x.ts == TS && AllInstantiated(x.ts, x.rs) && TotalFor(x, data, 1) != 0.0
    ensures !ZeroTotal(x, data, 0)
  {
  }

  /** Two entries with data, of which only one has the call metric: rescaling stops or
    not, depending on which of them the source happens to visit first. */
  lemma OrderMattersExample()
    ensures var data: Data := map[1 := map[0 := 4.0], 3 := map[7 := 1.0]];
            && !LacksCounter(OneCounter, data, [Visit(1, 1), Visit(2, 3)])
            && LacksCounter(OneCounter, data, [Visit(2, 3), Visit(1, 1)])
  {
    var data: Data := map[1 := map[0 := 4.0], 3 := map[7 := 1.0]];
    assert 0 in data[1] && OneCounter(0).exterior;
    assert FirstUncounted(OneCounter, data, [Visit(2, 3), Visit(1, 1)], 0);
    var vs := [Visit(1, 1), Visit(2, 3)];
    assert !FirstUncounted(OneCounter, data, vs, 0);
    assert vs[0].ctx in data;
  }
}
