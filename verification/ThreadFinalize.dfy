/** All of `PerThreadTemporary::finalize`: redistributing what is attributed to
  reconstructions and flow graphs, folding it into the context tree, and propagating. */
module ThreadFinalize {
  import opened RealSums
  import opened ExteriorFactors
  import opened Attribution
  import opened FlowRedistribution
  import SubtreeSums
  import Propagation

  /** A reconstruction group: the call counts of contexts, and its flow graphs. */
  datatype Group = Group(data: Data, flows: seq<FlowInput>)

  // ----- What may be given

  ghost predicate Within(data: Data, cs: set<Ctx>) {
    forall c, m :: At(data, c, m) != 0.0 ==> c in cs
  }

  ghost predicate ReconstIn(x: ReconstInput, cs: set<Ctx>) {
    ReconstOk(x) && forall i :: 0 <= i < |x.ts| ==> x.r.finals[i] in cs
  }

  ghost predicate FlowIn(x: FlowInput, cs: set<Ctx>) {
    FlowOk(x) && FinalsIn(x, cs)
  }

  ghost predicate GroupIn(g: Group, cs: set<Ctx>) {
    NonNegative(g.data) && Within(g.data, cs) && FlowsIn(g.flows, cs)
  }

  ghost predicate ReconstsIn(xs: seq<ReconstInput>, cs: set<Ctx>) {
    forall k :: 0 <= k < |xs| ==> ReconstIn(xs[k], cs)
  }

  ghost predicate FlowsIn(xs: seq<FlowInput>, cs: set<Ctx>) {
    forall k :: 0 <= k < |xs| ==> FlowIn(xs[k], cs)
  }

  ghost predicate GroupsIn(gs: seq<Group>, cs: set<Ctx>) {
    forall k :: 0 <= k < |gs| ==> GroupIn(gs[k], cs)
  }

  // ----- How it ends: with the first step that does not succeed

  ghost function ReconstsOutcome(xs: seq<ReconstInput>, cs: set<Ctx>, data: Data): FlowStatus
    requires ReconstsIn(xs, cs)
  {
    if xs == [] then Redistributed
    else
      var n := |xs| - 1;
      var before := ReconstsOutcome(xs[..n], cs, data);
      if before.Redistributed? then ReconstOutcome(xs[n], data) else before
  }

  ghost function FlowsOutcome(xs: seq<FlowInput>, cs: set<Ctx>, data: Data, sums: Data): FlowStatus
    requires FlowsIn(xs, cs)
  {
    if xs == [] then Redistributed
    else
      var n := |xs| - 1;
      var before := FlowsOutcome(xs[..n], cs, data, sums);
      if before.Redistributed? then FlowOutcome(xs[n], data, sums) else before
  }

  ghost function GroupsOutcome(gs: seq<Group>, cs: set<Ctx>, sums: Data): FlowStatus
    requires GroupsIn(gs, cs)
  {
    if gs == [] then Redistributed
    else
      var n := |gs| - 1;
      var before := GroupsOutcome(gs[..n], cs, sums);
      if before.Redistributed? then FlowsOutcome(gs[n].flows, cs, gs[n].data, sums) else before
  }

  // ----- What a context receives

  ghost function ReconstsOut(xs: seq<ReconstInput>, cs: set<Ctx>, data: Data, c: Ctx, m: Metric): real
    requires ReconstsIn(xs, cs)
  {
    if xs == [] then 0.0 else ReconstsOut(xs[..|xs| - 1], cs, data, c, m) + ReconstOut(xs[|xs| - 1], data, c, m)
  }

  ghost function FlowsOut(xs: seq<FlowInput>, cs: set<Ctx>, data: Data, sums: Data, c: Ctx, m: Metric): real
    requires FlowsIn(xs, cs)
  {
    if xs == [] then 0.0 else FlowsOut(xs[..|xs| - 1], cs, data, sums, c, m) + FlowOut(xs[|xs| - 1], data, sums, c, m)
  }

  ghost function GroupsOut(gs: seq<Group>, cs: set<Ctx>, sums: Data, c: Ctx, m: Metric): real
    requires GroupsIn(gs, cs)
  {
    if gs == [] then 0.0
    else
      var n := |gs| - 1;
      GroupsOut(gs[..n], cs, sums, c, m) + FlowsOut(gs[n].flows, cs, gs[n].data, sums, c, m)
  }

  /** What the groups attribute to contexts directly. */
  ghost function GroupsAt(gs: seq<Group>, c: Ctx, m: Metric): real {
    if gs == [] then 0.0 else GroupsAt(gs[..|gs| - 1], c, m) + At(gs[|gs| - 1].data, c, m)
  }

  // ----- Folding values in

  type Points = (Ctx, Metric) -> real

  /** r is a with the values f added, and with entries for what is not zero in f. */
  ghost predicate IsSum(a: Data, f: Points, r: Data) {
    && (forall c, m :: At(r, c, m) == At(a, c, m) + f(c, m))
    && (forall c, m :: m in KeysAt(r, c) <==> m in KeysAt(a, c) || f(c, m) != 0.0)
    && (forall c :: c in a ==> c in r) && (forall c :: c in r ==> c in a || KeysAt(r, c) != {})
  }

  /** Adding twice, to different places, is adding both. */
  lemma SumTwice(a: Data, f: Points, r: Data, g: Points, r': Data, h: Points)
    requires IsSum(a, f, r) && IsSum(r, g, r')
    requires forall c, m :: h(c, m) == f(c, m) + g(c, m) && (f(c, m) == 0.0 || g(c, m) == 0.0)
    ensures IsSum(a, h, r')
  {
    forall c | c in r'
      ensures c in a || KeysAt(r', c) != {}
    {
      if c !in a && c in r {
        var m :| m in KeysAt(r, c);
        assert m in KeysAt(r', c);
      }
    }
  }

  lemma SumNothing(a: Data, f: Points)
    requires forall c, m :: f(c, m) == 0.0
    ensures IsSum(a, f, a)
  {
  }

  ghost function OnePoint(c: Ctx, m: Metric, v: real): Points {
    (c': Ctx, m': Metric) => if c' == c && m' == m then v else 0.0
  }

  /** The values of context c except for the metrics in `todo`. */
  ghost function SomePoints(c: Ctx, values: Values, todo: set<Metric>): Points {
    (c': Ctx, m: Metric) => if c' == c && m !in todo then Val(values, m) else 0.0
  }

  /** The values except for the contexts in `todo`. */
  ghost function AllPoints(data: Data, todo: set<Ctx>): Points {
    (c: Ctx, m: Metric) => if c in todo then 0.0 else At(data, c, m)
  }

  /** Add the values of one context, in any order; zeros leave no trace. */
  method FoldContext(a: Data, c: Ctx, values: Values) returns (r: Data)
    ensures IsSum(a, SomePoints(c, values, {}), r)
  {
    r := a;
    var todo := values.Keys;
    SumNothing(a, SomePoints(c, values, todo));
    while todo != {}
      invariant todo <= values.Keys && IsSum(a, SomePoints(c, values, todo), r)
    {
      var m: Metric :| m in todo;
      ghost var before := r;
      r := Add(r, c, m, values[m]);
      AddIsSum(before, c, m, values[m], r);
      SumTwice(a, SomePoints(c, values, todo), before, OnePoint(c, m, values[m]), r, SomePoints(c, values, todo - {m}));
      todo := todo - {m};
    }
  }

  lemma AddIsSum(a: Data, c: Ctx, m: Metric, v: real, r: Data)
    requires forall c', m' :: At(r, c', m') == At(a, c', m') + if c' == c && m' == m then v else 0.0
    requires r.Keys == a.Keys + if v == 0.0 then {} else {c}
    requires forall c', m' :: m' in KeysAt(r, c') <==> m' in KeysAt(a, c') || (v != 0.0 && c' == c && m' == m)
    ensures IsSum(a, OnePoint(c, m, v), r)
  {
    if v != 0.0 { assert m in KeysAt(r, c); }
  }

  method Fold(a: Data, b: Data) returns (r: Data)
    ensures IsSum(a, AllPoints(b, {}), r)
  {
    r := a;
    var todo := b.Keys;
    SumNothing(a, AllPoints(b, todo));
    while todo != {}
      invariant todo <= b.Keys && IsSum(a, AllPoints(b, todo), r)
    {
      var c: Ctx :| c in todo;
      ghost var before := r;
      r := FoldContext(r, c, b[c]);
      SumTwice(a, AllPoints(b, todo), before, SomePoints(c, b[c], {}), r, AllPoints(b, todo - {c}));
      todo := todo - {c};
    }
  }

  // ----- The groups' call counts

  /** There are entries only for what is not zero. */
  ghost predicate Trim(data: Data) {
    && (forall c, m :: m in KeysAt(data, c) ==> At(data, c, m) != 0.0)
    && (forall c :: c in data ==> KeysAt(data, c) != {})
  }

  /** The call counts of all groups together. */
  ghost predicate AreSums(sums: Data, gs: seq<Group>) {
    NonNegative(sums) && Trim(sums) && forall c, m :: At(sums, c, m) == GroupsAt(gs, c, m)
  }

  lemma PointsNonNeg(data: Data, c: Ctx, m: Metric)
    requires NonNegative(data)
    ensures At(data, c, m) >= 0.0
  {
  }

  lemma FoldIsTrim(a: Data, b: Data, r: Data)
    requires NonNegative(a) && Trim(a) && NonNegative(b) && IsSum(a, AllPoints(b, {}), r)
    ensures NonNegative(r) && Trim(r)
  {
    forall c, m | m in KeysAt(r, c)
      ensures At(r, c, m) > 0.0 && r[c][m] >= 0.0
    {
      PointsNonNeg(a, c, m);
      PointsNonNeg(b, c, m);
      assert m in KeysAt(a, c) ==> At(a, c, m) != 0.0;
    }
    forall c | c in r
      ensures KeysAt(r, c) != {}
    {
      if c in a {
        var m :| m in KeysAt(a, c);
        assert m in KeysAt(r, c);
      }
    }
  }

  lemma FoldWithin(a: Data, b: Data, r: Data, cs: set<Ctx>)
    requires IsSum(a, AllPoints(b, {}), r) && Within(b, cs)
    ensures forall c :: c in r ==> c in a || c in cs
  {
    forall c | c in r && c !in a
      ensures c in cs
    {
      var m :| m in KeysAt(r, c);
      assert At(b, c, m) != 0.0;
    }
  }

  /** Sum the call counts of all groups, and fold them into the context data. */
  method FoldGroups(data: Data, gs: seq<Group>, ghost cs: set<Ctx>) returns (data': Data, sums: Data)
    requires GroupsIn(gs, cs)
    ensures AreSums(sums, gs)
    ensures forall c, m :: At(data', c, m) == At(data, c, m) + GroupsAt(gs, c, m)
    ensures forall c :: c in data' ==> c in data || c in cs
  {
    data', sums := data, map[];
    for k := 0 to |gs|
      invariant AreSums(sums, gs[..k])
      invariant forall c, m :: At(data', c, m) == At(data, c, m) + GroupsAt(gs[..k], c, m)
      invariant forall c :: c in data' ==> c in data || c in cs
    {
      ghost var before, earlier := sums, data';
      assert GroupIn(gs[k], cs);
      assert gs[..k + 1][..k] == gs[..k];
      sums := Fold(sums, gs[k].data);
      data' := Fold(data', gs[k].data);
      FoldIsTrim(before, gs[k].data, sums);
      FoldWithin(earlier, gs[k].data, data', cs);
    }
    assert gs[..|gs|] == gs;
  }

  lemma {:induction false} GroupsAtLeast(gs: seq<Group>, cs: set<Ctx>, k: nat, c: Ctx, m: Metric)
    requires GroupsIn(gs, cs) && k < |gs|
    ensures 0.0 <= At(gs[k].data, c, m) <= GroupsAt(gs, c, m)
  {
    var n := |gs| - 1;
    PointsNonNeg(gs[n].data, c, m);
    if k < n {
      GroupsAtLeast(gs[..n], cs, k, c, m);
    } else {
      GroupsNonNeg(gs[..n], cs, c, m);
    }
  }

  lemma {:induction false} GroupsNonNeg(gs: seq<Group>, cs: set<Ctx>, c: Ctx, m: Metric)
    requires GroupsIn(gs, cs)
    ensures GroupsAt(gs, c, m) >= 0.0
  {
    if gs != [] {
      GroupsNonNeg(gs[..|gs| - 1], cs, c, m);
      PointsNonNeg(gs[|gs| - 1].data, c, m);
    }
  }

  lemma SumsList(gs: seq<Group>, cs: set<Ctx>, sums: Data, k: nat)
    requires GroupsIn(gs, cs) && AreSums(sums, gs) && k < |gs|
    ensures Listed(gs[k].data, sums)
  {
    forall c, m | At(gs[k].data, c, m) != 0.0
      ensures c in sums
    {
      GroupsAtLeast(gs, cs, k, c, m);
      assert At(sums, c, m) != 0.0;
    }
  }

  // ----- Redistribution

  method RedistributeReconsts(data: Data, xs: seq<ReconstInput>, ghost cs: set<Ctx>) returns (outputs: Data, status: FlowStatus)
    requires ReconstsIn(xs, cs)
    ensures status == ReconstsOutcome(xs, cs, data)
    ensures status.Redistributed? ==> forall c, m :: At(outputs, c, m) == ReconstsOut(xs, cs, data, c, m)
  {
    outputs, status := map[], Redistributed;
    for k := 0 to |xs|
      invariant status.Redistributed? && ReconstsOutcome(xs[..k], cs, data).Redistributed?
      invariant forall c, m :: At(outputs, c, m) == ReconstsOut(xs[..k], cs, data, c, m)
    {
      assert ReconstIn(xs[k], cs);
      assert xs[..k + 1][..k] == xs[..k];
      outputs, status := RedistributeReconstruction(outputs, xs[k], data);
      if !status.Redistributed? {
        StaysFailed(xs, cs, data, k + 1);
        return;
      }
    }
    assert xs[..|xs|] == xs;
  }

  /** Later reconstructions do not change how it ended. */
  lemma {:induction false} StaysFailed(xs: seq<ReconstInput>, cs: set<Ctx>, data: Data, n: nat)
    requires ReconstsIn(xs, cs) && n <= |xs| && !ReconstsOutcome(xs[..n], cs, data).Redistributed?
    ensures ReconstsOutcome(xs, cs, data) == ReconstsOutcome(xs[..n], cs, data)
  {
    if n == |xs| {
      assert xs[..n] == xs;
    } else {
      assert xs[..|xs| - 1][..n] == xs[..n];
      StaysFailed(xs[..|xs| - 1], cs, data, n);
    }
  }

  lemma {:induction false} FlowsStayFailed(xs: seq<FlowInput>, cs: set<Ctx>, data: Data, sums: Data, n: nat)
    requires FlowsIn(xs, cs) && n <= |xs| && !FlowsOutcome(xs[..n], cs, data, sums).Redistributed?
    ensures FlowsOutcome(xs, cs, data, sums) == FlowsOutcome(xs[..n], cs, data, sums)
  {
    if n == |xs| {
      assert xs[..n] == xs;
    } else {
      assert xs[..|xs| - 1][..n] == xs[..n];
      FlowsStayFailed(xs[..|xs| - 1], cs, data, sums, n);
    }
  }

  lemma {:induction false} GroupsStayFailed(gs: seq<Group>, cs: set<Ctx>, sums: Data, n: nat)
    requires GroupsIn(gs, cs) && n <= |gs| && !GroupsOutcome(gs[..n], cs, sums).Redistributed?
    ensures GroupsOutcome(gs, cs, sums) == GroupsOutcome(gs[..n], cs, sums)
  {
    if n == |gs| {
      assert gs[..n] == gs;
    } else {
      assert gs[..|gs| - 1][..n] == gs[..n];
      GroupsStayFailed(gs[..|gs| - 1], cs, sums, n);
    }
  }

  method RedistributeFlows(outputs: Data, xs: seq<FlowInput>, data: Data, sums: Data, ghost cs: set<Ctx>)
    returns (outputs': Data, status: FlowStatus)
    requires FlowsIn(xs, cs)
    ensures status == FlowsOutcome(xs, cs, data, sums)
    ensures status.Redistributed? ==>
              forall c, m :: At(outputs', c, m) == At(outputs, c, m) + FlowsOut(xs, cs, data, sums, c, m)
  {
    outputs', status := outputs, Redistributed;
    for k := 0 to |xs|
      invariant status.Redistributed? && FlowsOutcome(xs[..k], cs, data, sums).Redistributed?
      invariant forall c, m :: At(outputs', c, m) == At(outputs, c, m) + FlowsOut(xs[..k], cs, data, sums, c, m)
    {
      assert FlowIn(xs[k], cs);
      assert xs[..k + 1][..k] == xs[..k];
      outputs', status := RedistributeFlow(outputs', xs[k], data, sums);
      if !status.Redistributed? {
        FlowsStayFailed(xs, cs, data, sums, k + 1);
        return;
      }
    }
    assert xs[..|xs|] == xs;
  }

  method RedistributeGroups(outputs: Data, gs: seq<Group>, sums: Data, ghost cs: set<Ctx>)
    returns (outputs': Data, status: FlowStatus)
    requires GroupsIn(gs, cs)
    ensures status == GroupsOutcome(gs, cs, sums)
    ensures status.Redistributed? ==>
              forall c, m :: At(outputs', c, m) == At(outputs, c, m) + GroupsOut(gs, cs, sums, c, m)
  {
    outputs', status := outputs, Redistributed;
    for k := 0 to |gs|
      invariant status.Redistributed? && GroupsOutcome(gs[..k], cs, sums).Redistributed?
      invariant forall c, m :: At(outputs', c, m) == At(outputs, c, m) + GroupsOut(gs[..k], cs, sums, c, m)
    {
      assert GroupIn(gs[k], cs);
      assert gs[..k + 1][..k] == gs[..k];
      outputs', status := RedistributeFlows(outputs', gs[k].flows, gs[k].data, sums, cs);
      if !status.Redistributed? {
        GroupsStayFailed(gs, cs, sums, k + 1);
        return;
      }
    }
    assert gs[..|gs|] == gs;
  }

  // ----- Nothing outside the tree

  lemma {:induction false} ReconstsOutside(xs: seq<ReconstInput>, cs: set<Ctx>, data: Data, c: Ctx, m: Metric)
    requires ReconstsIn(xs, cs) && c !in cs
    ensures ReconstsOut(xs, cs, data, c, m) == 0.0
  {
    if xs != [] {
      assert ReconstIn(xs[|xs| - 1], cs);
      ReconstsOutside(xs[..|xs| - 1], cs, data, c, m);
      ReconstOutside(xs[|xs| - 1], data, cs, c, m);
    }
  }

  lemma {:induction false} FlowsOutside(xs: seq<FlowInput>, cs: set<Ctx>, data: Data, sums: Data, c: Ctx, m: Metric)
    requires FlowsIn(xs, cs) && c !in cs
    ensures FlowsOut(xs, cs, data, sums, c, m) == 0.0
  {
    if xs != [] {
      assert FlowIn(xs[|xs| - 1], cs);
      FlowsOutside(xs[..|xs| - 1], cs, data, sums, c, m);
      FlowOutside(xs[|xs| - 1], data, sums, cs, c, m);
    }
  }

  lemma {:induction false} GroupsOutside(gs: seq<Group>, cs: set<Ctx>, sums: Data, c: Ctx, m: Metric)
    requires GroupsIn(gs, cs) && c !in cs
    ensures GroupsOut(gs, cs, sums, c, m) == 0.0
  {
    if gs != [] {
      var g := gs[|gs| - 1];
      assert GroupIn(g, cs);
      GroupsOutside(gs[..|gs| - 1], cs, sums, c, m);
      FlowsOutside(g.flows, cs, g.data, sums, c, m);
    }
  }

  // ----- Totals

  ghost function Total(data: Data, cs: set<Ctx>, m: Metric): real {
    SumOver<nat>(cs, MetricOf(data, m))
  }

  /** The values of the reconstructions that were called. */
  ghost function ReconstsCalled(xs: seq<ReconstInput>, cs: set<Ctx>, data: Data, m: Metric): real
    requires ReconstsIn(xs, cs)
  {
    if xs == [] then 0.0
    else
      var x := xs[|xs| - 1];
      ReconstsCalled(xs[..|xs| - 1], cs, data, m) + if ReconstCalled(x, data) then Val(x.input, m) else 0.0
  }

  /** The values of the flow graphs that were called. */
  ghost function FlowsCalled(xs: seq<FlowInput>, cs: set<Ctx>, data: Data, m: Metric): real
    requires FlowsIn(xs, cs)
  {
    if xs == [] then 0.0
    else
      var x := xs[|xs| - 1];
      FlowsCalled(xs[..|xs| - 1], cs, data, m) + if FlowCalled(x, data) then Val(x.input, m) else 0.0
  }

  /** What the groups attribute to contexts, and to flow graphs that were called. */
  ghost function GroupsTotal(gs: seq<Group>, cs: set<Ctx>, m: Metric): real
    requires GroupsIn(gs, cs)
  {
    if gs == [] then 0.0
    else
      var g := gs[|gs| - 1];
      GroupsTotal(gs[..|gs| - 1], cs, m) + (Total(g.data, cs, m) + FlowsCalled(g.flows, cs, g.data, m))
  }

  /** All handlers name one call metric. */
  ghost predicate ReconstsSimple(xs: seq<ReconstInput>) {
    forall k :: 0 <= k < |xs| ==> OneCallMetric(xs[k].handler)
  }

  ghost predicate FlowsSimple(xs: seq<FlowInput>) {
    forall k :: 0 <= k < |xs| ==> OneCallMetric(xs[k].handler)
  }

  ghost predicate GroupsSimple(gs: seq<Group>) {
    forall k :: 0 <= k < |gs| ==> FlowsSimple(gs[k].flows)
  }

  ghost function ReconstsBy(xs: seq<ReconstInput>, cs: set<Ctx>, data: Data, m: Metric): Ctx -> real
    requires ReconstsIn(xs, cs)
  {
    (c: Ctx) => ReconstsOut(xs, cs, data, c, m)
  }

  ghost function FlowsBy(xs: seq<FlowInput>, cs: set<Ctx>, data: Data, sums: Data, m: Metric): Ctx -> real
    requires FlowsIn(xs, cs)
  {
    (c: Ctx) => FlowsOut(xs, cs, data, sums, c, m)
  }

  /** What the groups add to a context: directly, and from their flow graphs. */
  ghost function GroupsBy(gs: seq<Group>, cs: set<Ctx>, sums: Data, m: Metric): Ctx -> real
    requires GroupsIn(gs, cs)
  {
    (c: Ctx) => GroupsAt(gs, c, m) + GroupsOut(gs, cs, sums, c, m)
  }

  lemma {:induction false} ReconstsConserve(xs: seq<ReconstInput>, cs: set<Ctx>, data: Data, m: Metric)
    requires ReconstsIn(xs, cs) && ReconstsSimple(xs)
    ensures SumOver<nat>(cs, ReconstsBy(xs, cs, data, m)) == ReconstsCalled(xs, cs, data, m)
  {
    if xs == [] {
      SumOverZero<nat>(cs, ReconstsBy(xs, cs, data, m));
    } else {
      var n := |xs| - 1;
      var x := xs[n];
      assert ReconstIn(x, cs);
      ReconstsConserve(xs[..n], cs, data, m);
      ReconstConserves(x, data, cs, Val(x.input, m));
      SumOverPlus<nat>(cs, ReconstsBy(xs[..n], cs, data, m), ReconstOutBy(x, data, Val(x.input, m)), ReconstsBy(xs, cs, data, m));
    }
  }

  lemma {:induction false} FlowsConserve(xs: seq<FlowInput>, cs: set<Ctx>, data: Data, sums: Data, m: Metric)
    requires FlowsIn(xs, cs) && FlowsSimple(xs) && NonNegative(data) && Listed(data, sums)
    requires FlowsOutcome(xs, cs, data, sums).Redistributed?
    ensures SumOver<nat>(cs, FlowsBy(xs, cs, data, sums, m)) == FlowsCalled(xs, cs, data, m)
  {
    if xs == [] {
      SumOverZero<nat>(cs, FlowsBy(xs, cs, data, sums, m));
    } else {
      var n := |xs| - 1;
      var x := xs[n];
      assert FlowIn(x, cs);
      FlowsConserve(xs[..n], cs, data, sums, m);
      FlowConserves(x, data, sums, cs, Val(x.input, m));
      FlowsByLast(xs, cs, data, sums, m);
    }
  }

  lemma FlowsByLast(xs: seq<FlowInput>, cs: set<Ctx>, data: Data, sums: Data, m: Metric)
    requires FlowsIn(xs, cs) && xs != [] && FlowIn(xs[|xs| - 1], cs)
    ensures var n := |xs| - 1;
            SumOver<nat>(cs, FlowsBy(xs, cs, data, sums, m)) ==
            SumOver<nat>(cs, FlowsBy(xs[..n], cs, data, sums, m))
            + SumOver<nat>(cs, ReceivedBy(xs[n].ts, xs[n].rs, SharesOf(xs[n], data, sums), Val(xs[n].input, m)))
  {
    var n := |xs| - 1;
    SumOverPlus<nat>(cs, FlowsBy(xs[..n], cs, data, sums, m),
                     ReceivedBy(xs[n].ts, xs[n].rs, SharesOf(xs[n], data, sums), Val(xs[n].input, m)), FlowsBy(xs, cs, data, sums, m));
  }

  lemma GroupConserves(g: Group, cs: set<Ctx>, sums: Data, m: Metric, own: Ctx -> real)
    requires GroupIn(g, cs) && FlowsSimple(g.flows) && Listed(g.data, sums)
    requires FlowsOutcome(g.flows, cs, g.data, sums).Redistributed?
    requires forall c :: own(c) == At(g.data, c, m) + FlowsOut(g.flows, cs, g.data, sums, c, m)
    ensures SumOver<nat>(cs, own) == Total(g.data, cs, m) + FlowsCalled(g.flows, cs, g.data, m)
  {
    FlowsConserve(g.flows, cs, g.data, sums, m);
    SumOverPlus<nat>(cs, MetricOf(g.data, m), FlowsBy(g.flows, cs, g.data, sums, m), own);
  }

  lemma {:induction false} GroupsConserve(gs: seq<Group>, cs: set<Ctx>, sums: Data, m: Metric)
    requires GroupsIn(gs, cs) && GroupsSimple(gs) && (forall k :: 0 <= k < |gs| ==> Listed(gs[k].data, sums))
    requires GroupsOutcome(gs, cs, sums).Redistributed?
    ensures SumOver<nat>(cs, GroupsBy(gs, cs, sums, m)) == GroupsTotal(gs, cs, m)
  {
    if gs == [] {
      SumOverZero<nat>(cs, GroupsBy(gs, cs, sums, m));
    } else {
      var n := |gs| - 1;
      var g := gs[n];
      assert GroupIn(g, cs);
      var own := (c: Ctx) => At(g.data, c, m) + FlowsOut(g.flows, cs, g.data, sums, c, m);
      GroupsConserve(gs[..n], cs, sums, m);
      GroupConserves(g, cs, sums, m, own);
      SumOverPlus<nat>(cs, GroupsBy(gs[..n], cs, sums, m), own, GroupsBy(gs, cs, sums, m));
    }
  }

  // ----- The whole

  /** The point values as accumulators. */
  function AsStore(data: Data): Propagation.Store {
    map c | c in data :: map m | m in data[c] :: Propagation.Accum(data[c][m], 0.0, 0.0, 0.0)
  }

  ghost function Below(n: nat): (cs: set<Ctx>)
    ensures forall c: Ctx :: c in cs <==> c < n
  {
    if n == 0 then {} else Below(n - 1) + {n - 1}
  }

  lemma {:induction false} SumAllIsTotal(data: Data, n: nat, m: Metric)
    ensures SubtreeSums.SumAll(Propagation.Points(AsStore(data), m), n) == Total(data, Below(n), m)
  {
    if n == 0 {
      assert Below(0) == {};
    } else {
      SumAllIsTotal(data, n - 1, m);
      SumOverAdd<nat>(Below(n), MetricOf(data, m), n - 1);
      assert Below(n) - {n - 1} == Below(n - 1);
      assert Propagation.Points(AsStore(data), m)(n - 1) == At(data, n - 1, m);
    }
  }

  /** The point values after redistribution. */
  ghost predicate ArePoints(points: Data, data: Data, xs: seq<ReconstInput>, gs: seq<Group>, cs: set<Ctx>, sums: Data)
    requires ReconstsIn(xs, cs) && GroupsIn(gs, cs)
  {
    forall c, m :: At(points, c, m) ==
                   At(data, c, m) + GroupsAt(gs, c, m) + (ReconstsOut(xs, cs, data, c, m) + GroupsOut(gs, cs, sums, c, m))
  }

  /** With one call metric per handler, all that was attributed to contexts and to
    whatever was called is there; the values of what was never called are dropped. */
  lemma PointsConserve(points: Data, data: Data, xs: seq<ReconstInput>, gs: seq<Group>, cs: set<Ctx>, sums: Data, m: Metric)
    requires ReconstsIn(xs, cs) && GroupsIn(gs, cs) && AreSums(sums, gs) && ReconstsSimple(xs) && GroupsSimple(gs)
    requires GroupsOutcome(gs, cs, sums).Redistributed? && ArePoints(points, data, xs, gs, cs, sums)
    ensures Total(points, cs, m) == Total(data, cs, m) + ReconstsCalled(xs, cs, data, m) + GroupsTotal(gs, cs, m)
  {
    forall k: nat | k < |gs|
      ensures Listed(gs[k].data, sums)
    {
      SumsList(gs, cs, sums, k);
    }
    ReconstsConserve(xs, cs, data, m);
    GroupsConserve(gs, cs, sums, m);
    var some := (c: Ctx) => At(data, c, m) + ReconstsOut(xs, cs, data, c, m);
    SumOverPlus<nat>(cs, MetricOf(data, m), ReconstsBy(xs, cs, data, m), some);
    SumOverPlus<nat>(cs, some, GroupsBy(gs, cs, sums, m), MetricOf(points, m));
  }

  /** Redistribution and folding. */
  method RedistributeAll(data: Data, xs: seq<ReconstInput>, gs: seq<Group>, ghost cs: set<Ctx>)
    returns (points: Data, status: FlowStatus, ghost sums: Data)
    requires ReconstsIn(xs, cs) && GroupsIn(gs, cs)
    ensures ReconstsOutcome(xs, cs, data).Redistributed? ==> AreSums(sums, gs)
    ensures var first := ReconstsOutcome(xs, cs, data);
            status == if first.Redistributed? then GroupsOutcome(gs, cs, sums) else first
    ensures status.Redistributed? ==> ArePoints(points, data, xs, gs, cs, sums)
    ensures forall c :: c in points ==> c in data || c in cs
  {
    var outputs, folded, groupSums;
    sums, points := map[], map[];
    outputs, status := RedistributeReconsts(data, xs, cs);
    if !status.Redistributed? { return; }
    folded, groupSums := FoldGroups(data, gs, cs);
    sums := groupSums;
    outputs, status := RedistributeGroups(outputs, gs, groupSums, cs);
    if !status.Redistributed? { return; }
    points := Fold(folded, outputs);
    forall c, m | c !in cs
      ensures At(outputs, c, m) == 0.0
    {
      ReconstsOutside(xs, cs, data, c, m);
      GroupsOutside(gs, cs, sums, c, m);
    }
    FoldWithin(folded, outputs, points, cs);
  }

  /** Redistribute, fold and propagate. It ends with the first step that does not succeed.
    Otherwise every context above data ends with its three subtree sums of the
    redistributed values, and with one call metric per handler the root's execution
    sum is all that was attributed to contexts and to whatever was called. */
  method Finalize(t: SubtreeSums.Tree, data: Data, xs: seq<ReconstInput>, gs: seq<Group>)
    returns (store: Propagation.Store, status: FlowStatus, ghost points: Data, ghost sums: Data)
    requires SubtreeSums.IsTree(t) && forall c :: c in data ==> c < |t.parent|
    requires ReconstsIn(xs, Below(|t.parent|)) && GroupsIn(gs, Below(|t.parent|))
    ensures ReconstsOutcome(xs, Below(|t.parent|), data).Redistributed? ==> AreSums(sums, gs)
    ensures var cs := Below(|t.parent|);
            var first := ReconstsOutcome(xs, cs, data);
            status == if first.Redistributed? then GroupsOutcome(gs, cs, sums) else first
    ensures status.Redistributed? ==>
              && ArePoints(points, data, xs, gs, Below(|t.parent|), sums)
              && (forall c :: c in points ==> c < |t.parent|)
              && (forall c, m :: c in Propagation.Marked(t, points.Keys) ==>
                                   && Propagation.IsFinal(t, AsStore(points), Propagation.At(store, c, m), c, m)
                                   && Propagation.HoldsSums(t, AsStore(points), Propagation.At(store, c, m), c, m))
              && (forall c, m :: c !in Propagation.Marked(t, points.Keys) ==>
                                   Propagation.At(store, c, m) == Propagation.At(AsStore(points), c, m))
    ensures status.Redistributed? && ReconstsSimple(xs) && GroupsSimple(gs) ==>
              forall m :: var cs := Below(|t.parent|);
                          Propagation.At(store, 0, m).execution ==
                          Total(data, cs, m) + ReconstsCalled(xs, cs, data, m) + GroupsTotal(gs, cs, m)
  {
    ghost var cs := Below(|t.parent|);
    store := map[];
    var values;
    values, status, sums := RedistributeAll(data, xs, gs, cs);
    points := values;
    if !status.Redistributed? { return; }
    store := Propagation.Finalize(t, AsStore(values));
    assert AsStore(points).Keys == points.Keys;
    forall m | ReconstsSimple(xs) && GroupsSimple(gs)
      ensures Propagation.At(store, 0, m).execution ==
              Total(data, cs, m) + ReconstsCalled(xs, cs, data, m) + GroupsTotal(gs, cs, m)
    {
      SumAllIsTotal(points, |t.parent|, m);
      PointsConserve(points, data, xs, gs, cs, sums, m);
    }
  }
}
