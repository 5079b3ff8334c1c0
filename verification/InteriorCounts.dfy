/** `ContextFlowGraph::interiorFactors_impl` from the measured data: finding the metric
  that counts calls between functions, and computing the factors from its values. */
module InteriorCounts {
  import opened Common
  import opened Paths
  import opened RealSums
  import opened ExteriorFactors
  import opened InteriorSpec
  import InteriorFactors
  import FlowGraph

  /** The values of each function that may be called on the way, if it has any. */
  type Callers = map<Scope, Values>

  // ----- The metric

  /** Metric m belongs to a sibling and counts calls. */
  ghost predicate Seen(handler: Metric -> Handling, siblings: set<Scope>, data: Callers, m: Metric) {
    handler(m).interior && exists s :: s in siblings && s in data && m in data[s]
  }

  /** Two metrics claim to count calls. */
  ghost predicate TwoSeen(handler: Metric -> Handling, siblings: set<Scope>, data: Callers) {
    exists a, b :: a != b && Seen(handler, siblings, data, a) && Seen(handler, siblings, data, b)
  }

  ghost predicate IsTheMetric(handler: Metric -> Handling, q: set<Metric>, metric: Option<Metric>) {
    forall m: Metric :: metric == Some(m) <==> m in q && handler(m).interior
  }

  ghost predicate Twice(handler: Metric -> Handling, q: set<Metric>) {
    exists a, b :: a in q && b in q && a != b && handler(a).interior && handler(b).interior
  }

  /** Look at all metrics of one sibling, in any order. */
  method QueryInterior(handler: Metric -> Handling, values: Values, queried: set<Metric>, metric: Option<Metric>)
    returns (queried': set<Metric>, metric': Option<Metric>, fatal: bool)
    requires IsTheMetric(handler, queried, metric)
    ensures fatal <==> Twice(handler, queried + values.Keys)
    ensures !fatal ==> queried' == queried + values.Keys && IsTheMetric(handler, queried', metric')
  {
    queried', metric' := queried, metric;
    var todo := values.Keys;
    while todo != {}
      invariant todo <= values.Keys && queried' == queried + (values.Keys - todo)
      invariant IsTheMetric(handler, queried', metric')
    {
      var m: Metric :| m in todo;
      todo := todo - {m};
      if m !in queried' && handler(m).interior {
        if metric'.Some? {
          assert metric' == Some(metric'.value);
          return queried', metric', true;
        }
        metric' := Some(m);
      }
      queried' := queried' + {m};
    }
    fatal := false;
  }

  /** All metrics of some siblings. */
  ghost function MetricsOf(siblings: set<Scope>, data: Callers): set<Metric> {
    set s, m | s in siblings && s in data && m in data[s] :: m
  }

  lemma TwiceMore(handler: Metric -> Handling, q: set<Metric>, q': set<Metric>)
    requires Twice(handler, q) && q <= q'
    ensures Twice(handler, q')
  {
  }

  /** The metric for interior factors, or a failure exactly if there are two. */
  method FindInterior(handler: Metric -> Handling, siblings: set<Scope>, data: Callers)
    returns (metric: Option<Metric>, fatal: bool)
    ensures fatal <==> TwoSeen(handler, siblings, data)
    ensures !fatal ==> forall m: Metric :: metric == Some(m) <==> Seen(handler, siblings, data, m)
  {
    metric := None;
    var queried: set<Metric>, todo := {}, siblings;
    while todo != {}
      invariant todo <= siblings && queried == MetricsOf(siblings - todo, data)
      invariant IsTheMetric(handler, queried, metric)
    {
      var s: Scope :| s in todo;
      ghost var before := queried;
      assert siblings - (todo - {s}) == siblings - todo + {s};
      if s in data {
        queried, metric, fatal := QueryInterior(handler, data[s], queried, metric);
        if fatal {
          TwiceMore(handler, before + data[s].Keys, MetricsOf(siblings, data));
          SeenInMetrics(handler, siblings, data);
          return;
        }
      }
      todo := todo - {s};
    }
    assert siblings - {} == siblings;
    SeenInMetrics(handler, siblings, data);
    fatal := false;
  }

  lemma SeenInMetrics(handler: Metric -> Handling, siblings: set<Scope>, data: Callers)
    ensures forall m :: Seen(handler, siblings, data, m) <==> m in MetricsOf(siblings, data) && handler(m).interior
    ensures TwoSeen(handler, siblings, data) <==> Twice(handler, MetricsOf(siblings, data))
  {
    if a, b :| a != b && Seen(handler, siblings, data, a) && Seen(handler, siblings, data, b) {
      assert a in MetricsOf(siblings, data) && b in MetricsOf(siblings, data);
    }
  }

  // ----- The counts

  /** The metric found. */
  ghost function Interior(handler: Metric -> Handling, siblings: set<Scope>, data: Callers): Option<Metric> {
    if exists m :: Seen(handler, siblings, data, m) then
      var m :| Seen(handler, siblings, data, m);
      Some(m)
    else None
  }

  /** Calls that have no values at all count as zero. */
  function CountsOf(data: Callers, metric: Option<Metric>): Scope -> real {
    (s: Scope) => if metric.Some? && s in data then Val(data[s], metric.value) else 0.0
  }

  ghost predicate NoNegative(data: Callers) {
    forall s, m :: s in data && m in data[s] ==> data[s][m] >= 0.0
  }

  /** The frozen paths with the shares the data gives to calls. */
  ghost function FlowFor(handler: Metric -> Handling, siblings: set<Scope>, data: Callers, paths: seq<Path>, possible: seq<bool>): Flow {
    Flow(paths, possible, CallShare(CountsOf(data, Interior(handler, siblings, data))))
  }

  lemma FlowForFrozen(handler: Metric -> Handling, siblings: set<Scope>, data: Callers, paths: seq<Path>, possible: seq<bool>)
    requires |paths| == |possible| && Sorted(paths) && SuffixFree(paths) && NoNegative(data)
    ensures Frozen(FlowFor(handler, siblings, data, paths, possible))
  {
    CallShareFair(CountsOf(data, Interior(handler, siblings, data)));
  }

  /** How often each function was called, as far as it was measured. */
  ghost function Measured(data: Callers, metric: Option<Metric>): Scope -> real {
    (q: Scope) => if metric.Some? && q in data && metric.value in data[q] then data[q][metric.value] else 0.0
  }

  /** The part that v is of the total, or an even one of n parts if the total is zero. */
  ghost predicate IsPart(part: real, v: real, total: real, n: nat) {
    if total > 0.0 then part * total == v else part * n as real == 1.0
  }

  /** Template i's share in round k is its call's part of all calls that are possible there. */
  ghost predicate ShareMeasured(f: Flow, data: Callers, metric: Option<Metric>, i: nat, k: nat)
    requires Possible(f, i) && k < |f.paths[i]|
  {
    var next, calls := Next(f, i, k), Measured(data, metric);
    IsPart(Ratio(f, i, k), calls(RAt(f.paths[i], k)), SumOver<nat>(next, calls), |next|)
  }

  ghost predicate SharesMeasured(f: Flow, data: Callers, metric: Option<Metric>) {
    forall i: nat, k: nat :: Possible(f, i) && k < |f.paths[i]| ==> ShareMeasured(f, data, metric, i, k)
  }

  lemma QuotientIsPart(part: real, v: real, total: real, n: nat)
    requires n > 0 && part == if total > 0.0 then v / total else 1.0 / n as real
    ensures IsPart(part, v, total, n)
  {
  }

  lemma ShareIsPart(calls: Scope -> real, next: set<Scope>, q: Scope)
    requires q in next
    ensures IsPart(CallShare(calls)(q, next), calls(q), SumOver<nat>(next, calls), |next|)
  {
    QuotientIsPart(CallShare(calls)(q, next), calls(q), SumOver<nat>(next, calls), |next|);
  }

  lemma FlowForMeasuredAt(f: Flow, data: Callers, metric: Option<Metric>, i: nat, k: nat)
    requires f.share == CallShare(CountsOf(data, metric)) && Possible(f, i) && k < |f.paths[i]|
    ensures ShareMeasured(f, data, metric, i, k)
  {
    var next, q := Next(f, i, k), RAt(f.paths[i], k);
    NextHasOwn(f, i, k);
    SumOverSame<nat>(next, Measured(data, metric), CountsOf(data, metric));
    ShareIsPart(CountsOf(data, metric), next, q);
    assert Measured(data, metric)(q) == CountsOf(data, metric)(q);
  }

  /** The shares are those of the siblings' values. */
  lemma FlowForMeasured(handler: Metric -> Handling, siblings: set<Scope>, data: Callers, paths: seq<Path>, possible: seq<bool>)
    ensures SharesMeasured(FlowFor(handler, siblings, data, paths, possible), data, Interior(handler, siblings, data))
  {
    var f := FlowFor(handler, siblings, data, paths, possible);
    forall i: nat, k: nat | Possible(f, i) && k < |f.paths[i]|
      ensures ShareMeasured(f, data, Interior(handler, siblings, data), i, k)
    {
      FlowForMeasuredAt(f, data, Interior(handler, siblings, data), i, k);
    }
  }

  // ----- The factors

  datatype InteriorStatus = Computed | Ambiguous | MissingCount

  /** A count is looked up for a call that has values, but not this one. */
  ghost predicate LacksCount(f: Flow, data: Callers, metric: Option<Metric>) {
    metric.Some? && exists s :: s in InteriorFactors.Looked(f) && s in data && metric.value !in data[s]
  }

  /** How the calculation ends. With at most one possible template nothing is looked at. */
  ghost function InteriorResult(handler: Metric -> Handling, siblings: set<Scope>, data: Callers,
                                paths: seq<Path>, possible: seq<bool>): InteriorStatus
  {
    if !InteriorFactors.Several(possible) then Computed
    else if TwoSeen(handler, siblings, data) then Ambiguous
    else if LacksCount(FlowFor(handler, siblings, data, paths, possible), data, Interior(handler, siblings, data)) then MissingCount
    else Computed
  }

  method AllCounted(looked: set<Scope>, data: Callers, metric: Option<Metric>) returns (ok: bool)
    ensures ok <==> !(metric.Some? && exists s :: s in looked && s in data && metric.value !in data[s])
  {
    if metric.None? { return true; }
    var todo := looked;
    while todo != {}
      invariant todo <= looked
      invariant forall s :: s in looked - todo && s in data ==> metric.value in data[s]
    {
      var s: Scope :| s in todo;
      if s in data && metric.value !in data[s] { return false; }
      todo := todo - {s};
    }
    ok := true;
  }

  /** The interior factors of all templates: how the calculation ends, and, template by
    template, the product of call shares. */
  method Compute(handler: Metric -> Handling, siblings: set<Scope>, data: Callers, paths: seq<Path>, possible: seq<bool>)
    returns (factors: seq<real>, status: InteriorStatus)
    requires |paths| == |possible| && Sorted(paths) && SuffixFree(paths) && NoNegative(data)
    ensures status == InteriorResult(handler, siblings, data, paths, possible)
    ensures status.Computed? ==> AreFactors(FlowFor(handler, siblings, data, paths, possible), factors)
    ensures SharesMeasured(FlowFor(handler, siblings, data, paths, possible), data, Interior(handler, siblings, data))
  {
    ghost var f := FlowFor(handler, siblings, data, paths, possible);
    FlowForMeasured(handler, siblings, data, paths, possible);
    FlowForFrozen(handler, siblings, data, paths, possible);
    var done;
    done, factors := InteriorFactors.Shortcut(paths, possible);
    if done { return factors, Computed; }
    var metric, fatal := FindInterior(handler, siblings, data);
    if fatal { return factors, Ambiguous; }
    assert metric == Interior(handler, siblings, data) by {
      assert metric.Some? ==> metric == Some(metric.value);
    }
    ghost var i, j :| 0 <= i < j < |possible| && possible[i] && possible[j];
    var looked;
    factors, looked := InteriorFactors.Rounds(paths, possible, CountsOf(data, metric), f, i, j);
    var ok := AllCounted(looked, data, metric);
    return factors, if ok then Computed else MissingCount;
  }

  /** The first round looks up every call of several possible templates that comes last. */
  lemma FirstLookUp(f: Flow, i: nat, j: nat)
    requires Possible(f, i) && Possible(f, j) && i != j && f.paths[i] != []
    ensures RAt(f.paths[i], 0) in InteriorFactors.Looked(f)
  {
    assert j in Class(f, i, 0);
    assert InteriorFactors.Undecided(f, i, 0);
  }

  /** A template whose last call has values, but not the one that counts calls, cannot be
    told from another possible template. */
  lemma CountIsMissing(handler: Metric -> Handling, siblings: set<Scope>, data: Callers, paths: seq<Path>, possible: seq<bool>,
                       i: nat, j: nat, m: Metric)
    requires |possible| == |paths| && i < |paths| && j < |paths| && possible[i] && possible[j] && i != j && paths[i] != []
    requires Seen(handler, siblings, data, m) && !TwoSeen(handler, siblings, data)
    requires RAt(paths[i], 0) in data && m !in data[RAt(paths[i], 0)]
    ensures InteriorResult(handler, siblings, data, paths, possible) == MissingCount
  {
    var f := FlowFor(handler, siblings, data, paths, possible);
    assert InteriorFactors.Several(possible) by {
      if i < j { assert possible[i] && possible[j]; } else { assert possible[j] && possible[i]; }
    }
    assert Interior(handler, siblings, data) == Some(m);
    FirstLookUp(f, i, j);
  }

  function OneInterior(m: Metric): Handling {
    Handling(false, false, m == 1)
  }

  /** Two ways in, of which one has the call count and the other has only another metric:
    its count is missing, and the calculation stops. */
  lemma MissingCountExample()
    ensures InteriorResult(OneInterior, {5, 6}, map[5 := map[1 := 4.0], 6 := map[7 := 1.0]], [[5], [6]], [true, true]) == MissingCount
  {
    var data: Callers := map[5 := map[1 := 4.0], 6 := map[7 := 1.0]];
    assert Seen(OneInterior, {5, 6}, data, 1) by { assert 1 in data[5]; }
    CountIsMissing(OneInterior, {5, 6}, data, [[5], [6]], [true, true], 1, 0, 1);
  }

  // ----- The whole life of a flow graph

  /** Template by template, whether its entry was called. */
  function EnteredBy(ts: seq<Template>, entered: Scope -> bool): (possible: seq<bool>)
    ensures |possible| == |ts| && forall i :: 0 <= i < |ts| ==> possible[i] == entered(ts[i].entry)
  {
    seq(|ts|, i requires 0 <= i < |ts| => entered(ts[i].entry))
  }

  /** Factors of a frozen graph: they sum to one if anything was entered. */
  method FrozenFactors(g: FlowGraph.ContextFlowGraph, handler: Metric -> Handling, data: Callers, entered: Scope -> bool)
    returns (factors: seq<real>, status: InteriorStatus)
    requires g.IsFrozen() && NoNegative(data)
    ensures status == InteriorResult(handler, g.siblings, data, PathsOf(g.templates), EnteredBy(g.templates, entered))
    ensures status.Computed? ==> IsUnit(g.templates, entered, factors)
    ensures status.Computed? ==>
              var f := FlowFor(handler, g.siblings, data, PathsOf(g.templates), EnteredBy(g.templates, entered));
              AreFactors(f, factors) && SharesMeasured(f, data, Interior(handler, g.siblings, data))
  {
    var possible := EnteredBy(g.templates, entered);
    FlowForFrozen(handler, g.siblings, data, PathsOf(g.templates), possible);
    factors, status := Compute(handler, g.siblings, data, PathsOf(g.templates), possible);
    if status.Computed? {
      FactorsSumToOne(FlowFor(handler, g.siblings, data, PathsOf(g.templates), possible), factors);
      EnteredIff(g.templates, entered);
    }
  }

  /** Non-negative factors for entered templates only, that sum to one if there are any. */
  ghost predicate IsUnit(ts: seq<Template>, entered: Scope -> bool, factors: seq<real>) {
    && |factors| == |ts|
    && (forall i :: 0 <= i < |ts| ==> factors[i] >= 0.0)
    && (forall i :: 0 <= i < |ts| && !entered(ts[i].entry) ==> factors[i] == 0.0)
    && Sum(factors) == if exists t :: t in ts && entered(t.entry) then 1.0 else 0.0
  }

  lemma EnteredIff(ts: seq<Template>, entered: Scope -> bool)
    ensures true in EnteredBy(ts, entered) <==> exists t :: t in ts && entered(t.entry)
  {
    if t :| t in ts && entered(t.entry) {
      var i :| 0 <= i < |ts| && ts[i] == t;
      assert EnteredBy(ts, entered)[i];
    }
  }

  /** Freeze any collection of templates and compute the interior factors. Unless the
    templates cannot be frozen or the counts cannot be had, the factors of the entered
    templates share a value out completely. */
  method FreezeAndCompute(g: FlowGraph.ContextFlowGraph, known: set<Scope>, handler: Metric -> Handling, data: Callers,
                          entered: Scope -> bool)
    returns (out: FlowGraph.FreezeOutcome, factors: seq<real>, status: InteriorStatus)
    requires !g.frozen && g.entries == {} && g.siblings == {} && NoNegative(data)
    modifies g
    ensures multiset(g.templates) == multiset(old(g.templates))
    ensures out.Frozen? <==>
            SuffixFree(PathsOf(old(g.templates))) && FlowGraph.Calls(g.templates) <= known && g.scope !in FlowGraph.Calls(g.templates)
    ensures out.Frozen? ==>
              status == InteriorResult(handler, FlowGraph.Calls(g.templates), data,
                                       PathsOf(g.templates), EnteredBy(g.templates, entered))
    ensures out.Frozen? && status.Computed? ==> IsUnit(g.templates, entered, factors)
  {
    factors, status := [], Computed;
    out := g.Freeze(known);
    if out.Frozen? {
      factors, status := FrozenFactors(g, handler, data, entered);
    }
  }
}
