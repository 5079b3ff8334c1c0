/** What a `ProfilePipeline` schedules: the sinks and sources it connects, and the
  wavefronts it will announce. */
module Wavefronts {
  datatype Class = Attributes | Threads | References | Metrics | Contexts | CtxTimepoints | MetricTimepoints
  type DataClass = set<Class>

  /** The classes that can be announced before everything is read. */
  const WAVES: DataClass := {Attributes, References, Threads, Contexts}

  /** `request` is the source's `finalizeRequest`. */
  datatype Source = Source(dataLimit: DataClass, request: DataClass -> DataClass)
  datatype Sink = Sink(dataLimit: DataClass, waveLimit: DataClass, ordered: bool, priorDelay: DataClass)
  datatype Pipeline = Pipeline(
    sinks: seq<Sink>,
    sources: seq<Source>,
    scheduled: DataClass,
    scheduledWaves: DataClass,
    unscheduledWaves: DataClass)

  /** A sink before it is connected: what it accepts, which wavefronts it asks for, and
    whether it registers for the ordered wavefront chain. */
  datatype Wish = Wish(accepts: DataClass, wavefronts: DataClass, ordered: bool)

  /** Some classes cannot be delivered without others. */
  function Accepted(w: Wish): DataClass {
    w.accepts
    + (if Metrics in w.accepts then {Attributes, Threads} else {})
    + (if Contexts in w.accepts then {References} else {})
    + (if CtxTimepoints in w.accepts then {Contexts, Threads} else {})
    + (if MetricTimepoints in w.accepts then {Attributes, Threads} else {})
  }

  /** Class by class, what a sink must be given for what it accepts. */
  ghost predicate Completes(limit: DataClass, accepts: DataClass) {
    && (Attributes in limit <==> Attributes in accepts || Metrics in accepts || MetricTimepoints in accepts)
    && (Threads in limit <==> Threads in accepts || Metrics in accepts || CtxTimepoints in accepts || MetricTimepoints in accepts)
    && (References in limit <==> References in accepts || Contexts in accepts)
    && (Contexts in limit <==> Contexts in accepts || CtxTimepoints in accepts)
    && (Metrics in limit <==> Metrics in accepts)
    && (CtxTimepoints in limit <==> CtxTimepoints in accepts)
    && (MetricTimepoints in limit <==> MetricTimepoints in accepts)
  }

  /** Every sink gets what it accepts with all that belongs to it, and of the wavefronts
    it asks for those of classes it gets. */
  ghost predicate Complete(sinks: seq<Sink>, wishes: seq<Wish>) {
    && |sinks| == |wishes|
    && forall k :: 0 <= k < |sinks| ==>
         && Completes(sinks[k].dataLimit, wishes[k].accepts)
         && (forall d :: d in sinks[k].waveLimit <==> d in sinks[k].dataLimit && d in wishes[k].wavefronts)
  }

  lemma GrantedIsComplete(sinks: seq<Sink>, wishes: seq<Wish>)
    requires Granted(sinks, wishes)
    ensures Complete(sinks, wishes)
  {
  }

  predicate Requested(sinks: seq<Sink>, d: Class) {
    exists k :: 0 <= k < |sinks| && d in sinks[k].dataLimit
  }

  predicate Announced(sinks: seq<Sink>, d: Class) {
    exists k :: 0 <= k < |sinks| && d in sinks[k].waveLimit
  }

  /** Class d is a wavefront of an ordered sink before position k. */
  predicate Before(sinks: seq<Sink>, k: int, d: Class) {
    exists j :: 0 <= j < k <= |sinks| && sinks[j].ordered && d in sinks[j].waveLimit
  }

  predicate Provided(sources: seq<Source>, d: Class) {
    exists i :: 0 <= i < |sources| && d in sources[i].dataLimit
  }

  predicate Granted(sinks: seq<Sink>, wishes: seq<Wish>) {
    && |sinks| == |wishes|
    && forall k :: 0 <= k < |sinks| ==>
         && sinks[k].dataLimit == Accepted(wishes[k])
         && sinks[k].waveLimit == Accepted(wishes[k]) * wishes[k].wavefronts
         && sinks[k].ordered == wishes[k].ordered
  }

  /** An ordered sink waits for the wavefronts of all ordered sinks before it. */
  ghost predicate Chained(sinks: seq<Sink>) {
    forall k, d :: 0 <= k < |sinks| ==>
      (d in sinks[k].priorDelay <==> sinks[k].ordered && Before(sinks, k, d))
  }

  ghost predicate Scheduled(p: Pipeline) {
    && (forall d :: d in p.scheduled <==> Provided(p.sources, d) && Requested(p.sinks, d))
    && (forall d :: d in p.scheduledWaves <==> Announced(p.sinks, d) && d in p.scheduled)
    && (forall d :: d in p.unscheduledWaves <==> Announced(p.sinks, d) && d !in p.scheduled)
  }

  /** Add the sinks one by one, linking the ordered ones into a chain. */
  method ConnectSinks(wishes: seq<Wish>) returns (sinks: seq<Sink>, requested: DataClass, waves: DataClass)
    ensures Granted(sinks, wishes) && Complete(sinks, wishes) && Chained(sinks)
    ensures forall d :: d in requested <==> Requested(sinks, d)
    ensures forall d :: d in waves <==> Announced(sinks, d)
  {
    sinks, requested, waves := [], {}, {};
    var depClasses: DataClass := {};
    for n := 0 to |wishes|
      invariant |sinks| == n && Granted(sinks, wishes[..n]) && Chained(sinks)
      invariant forall d :: d in requested <==> Requested(sinks, d)
      invariant forall d :: d in waves <==> Announced(sinks, d)
      invariant forall d :: d in depClasses <==> Before(sinks, n, d)
    {
      var w := wishes[n];
      var sink := Sink(Accepted(w), Accepted(w) * w.wavefronts, w.ordered, {});
      if w.ordered {
        sink := sink.(priorDelay := depClasses);
      }
      Extend(sinks, sink);
      GrantedMore(sinks, wishes, sink);
      if w.ordered {
        depClasses := depClasses + sink.waveLimit;
      }
      requested := requested + sink.dataLimit;
      waves := waves + sink.waveLimit;
      sinks := sinks + [sink];
    }
    assert wishes[..|wishes|] == wishes;
    GrantedIsComplete(sinks, wishes);
  }

  lemma GrantedMore(sinks: seq<Sink>, wishes: seq<Wish>, sink: Sink)
    requires |sinks| < |wishes| && Granted(sinks, wishes[..|sinks|])
    requires Granted([sink], [wishes[|sinks|]])
    ensures Granted(sinks + [sink], wishes[..|sinks| + 1])
  {
  }

  lemma Extend(sinks: seq<Sink>, sink: Sink)
    ensures var more := sinks + [sink];
            && (forall d :: Requested(more, d) <==> Requested(sinks, d) || d in sink.dataLimit)
            && (forall d :: Announced(more, d) <==> Announced(sinks, d) || d in sink.waveLimit)
            && (forall d :: Before(more, |more|, d) <==> Before(sinks, |sinks|, d) || (sink.ordered && d in sink.waveLimit))
            && (forall k, d :: 0 <= k <= |sinks| ==> (Before(more, k, d) <==> Before(sinks, k, d)))
  {
    var more := sinks + [sink];
    assert more[|sinks|] == sink;
    forall d
      ensures Requested(sinks, d) ==> Requested(more, d)
    {
      if Requested(sinks, d) {
        var k :| 0 <= k < |sinks| && d in sinks[k].dataLimit;
        assert d in more[k].dataLimit;
      }
    }
    forall d
      ensures Announced(sinks, d) ==> Announced(more, d)
    {
      if Announced(sinks, d) {
        var k :| 0 <= k < |sinks| && d in sinks[k].waveLimit;
        assert d in more[k].waveLimit;
      }
    }
    forall k, d | 0 <= k <= |sinks|
      ensures Before(sinks, k, d) ==> Before(more, k, d) && Before(more, |more|, d)
    {
      if Before(sinks, k, d) {
        var j :| 0 <= j < k && sinks[j].ordered && d in sinks[j].waveLimit;
        assert more[j].ordered && d in more[j].waveLimit;
      }
    }
  }

  /** The schedule: announced classes nobody provides are announced at once. */
  method Connect(wishes: seq<Wish>, sources: seq<Source>) returns (p: Pipeline)
    ensures p.sources == sources && Granted(p.sinks, wishes) && Complete(p.sinks, wishes) && Chained(p.sinks) && Scheduled(p)
  {
    var sinks, requested, waves := ConnectSinks(wishes);
    var scheduled: DataClass := {};
    for i := 0 to |sources|
      invariant forall d :: d in scheduled <==> Provided(sources[..i], d)
    {
      assert sources[..i + 1] == sources[..i] + [sources[i]];
      MoreProvided(sources[..i], sources[i]);
      scheduled := scheduled + sources[i].dataLimit;
    }
    assert sources[..|sources|] == sources;
    scheduled := scheduled * requested;
    p := Pipeline(sinks, sources, scheduled, waves * scheduled, waves - scheduled);
  }

  lemma MoreProvided(sources: seq<Source>, source: Source)
    ensures forall d :: Provided(sources + [source], d) <==> Provided(sources, d) || d in source.dataLimit
  {
    var more := sources + [source];
    assert more[|sources|] == source;
    forall d
      ensures Provided(sources, d) ==> Provided(more, d)
    {
      if Provided(sources, d) {
        var k :| 0 <= k < |sources| && d in sources[k].dataLimit;
        assert d in more[k].dataLimit;
      }
    }
  }

  /** What `run` relies on. */
  ghost predicate Connected(p: Pipeline) {
    && (forall k, d :: 0 <= k < |p.sinks| && d in p.sinks[k].waveLimit ==> d in p.scheduledWaves || d in p.unscheduledWaves)
    && (forall i, d :: 0 <= i < |p.sources| && d in p.unscheduledWaves ==> d !in p.sources[i].dataLimit)
    && p.scheduledWaves <= p.scheduled && p.scheduledWaves <= WAVES
    && p.scheduledWaves !! p.unscheduledWaves
    && (p.sources == [] || p.sinks == [] ==> p.scheduledWaves == {})
    && (forall j, k :: 0 <= j < k < |p.sinks| && p.sinks[j].ordered && p.sinks[k].ordered ==>
          p.sinks[j].waveLimit <= p.sinks[k].priorDelay && p.sinks[j].priorDelay <= p.sinks[k].priorDelay)
  }

  /** Every connected pipeline meets that, if early wavefronts are only asked for
    classes that have them. */
  lemma ConnectionHolds(p: Pipeline, wishes: seq<Wish>)
    requires Granted(p.sinks, wishes) && Chained(p.sinks) && Scheduled(p)
    requires forall k :: 0 <= k < |p.sinks| ==> p.sinks[k].waveLimit <= WAVES
    ensures Connected(p)
  {
  }

  /** The assumption on sources: a request covers at least what was asked for. */
  ghost predicate RequestsCover(p: Pipeline) {
    forall i, d :: 0 <= i < |p.sources| ==> d <= p.sources[i].request(d)
  }
}
