/** How often a source's `wavesComplete` is signalled. A second signal is an error:
  `Once::signal` may be called only once. */
module WavefrontSignals {
  import opened Wavefronts
  import opened WavefrontRuns
  import opened WavefrontInvariants
  import opened WavefrontTheorems

  ghost predicate AllCovered(p: Pipeline, i: nat, loops: set<nat>, ds: DataClass)
    requires i < |p.sources|
  {
    forall d :: d in ds ==> Covers(p, i, loops, d)
  }

  ghost predicate AllRun(p: Pipeline, loops: set<nat>) {
    forall loop :: loop in loops ==> Runs(p, loop)
  }

  /** The waves in `loops` already make source i read all its waves, and another wave w
    makes it read even more. */
  ghost predicate Overshoots(p: Pipeline, i: nat, loops: set<nat>, w: nat)
    requires i < |p.sources|
  {
    && AllRun(p, loops) && Runs(p, w) && w !in loops
    && AllCovered(p, i, loops, Own(p, i)) && !AllCovered(p, i, loops, Reads(p, i, w))
  }

  /** No wave makes source i read more once all its waves are read. */
  ghost predicate NoOvershoot(p: Pipeline, i: nat)
    requires i < |p.sources|
  {
    forall loops, w :: !Overshoots(p, i, loops, w)
  }

  // ----- In runs

  ghost predicate Once(p: Pipeline, s: State, i: nat)
    requires Shape(p, s) && i < |p.sources|
  {
    && s.sources[i].signals <= 1
    && (Own(p, i) == {} && s.sources[i].signals > 0 ==> s.status[UNBLOCK][i] == Done)
  }

  /** A wave that comes after all of the source's waves are read finds nothing to read. */
  lemma NothingLeft(p: Pipeline, s: State, t: nat)
    requires Inv(p, s) && t < |s.pcs| && s.pcs[t].Locked? && s.pcs[t].loop != FINISH
    requires var i := s.pcs[t].i; NoOvershoot(p, i) && (s.sources[i].signals > 0 || Own(p, i) == {})
    ensures s.pcs[t].req == {}
  {
    var Locked(loop, i, req) := s.pcs[t];
    var src := s.sources[i];
    assert HasLock(s.sources, t, s.pcs[t]);
    assert HolderReads(p, s.pcs, src, i);
    assert SourceOk(p, i, src);
    assert Holds(s.status, t, s.pcs[t]);
    assert Through(p, s.pcs, src, loop, i, s.status[loop][i]);
    assert !Overshoots(p, i, src.served, loop);
    CoveredIsRead(p, i, src, Reads(p, i, loop));
    assert req <= src.got;
  }

  lemma CoveredIsRead(p: Pipeline, i: nat, src: SourceState, ds: DataClass)
    requires i < |p.sources| && SourceOk(p, i, src) && AllCovered(p, i, src.served, ds)
    ensures ds <= src.got
  {
  }

  lemma OnceKept(p: Pipeline, s: State, m: Move, s': State, i: nat)
    requires Inv(p, s) && Step(p, s, m, s') && i < |p.sources| && NoOvershoot(p, i) && Once(p, s, i)
    ensures Shape(p, s') && Once(p, s', i)
  {
    ShapeKept(p, s, m.t, m.n);
    assert Holds(s.status, m.t, s.pcs[m.t]);
    var pc := s.pcs[m.t];
    if pc.Locked? && pc.i == i && pc.loop != FINISH && (s.sources[i].signals > 0 || Own(p, i) == {}) {
      NothingLeft(p, s, m.t);
    }
  }

  lemma RunOnceStep(p: Pipeline, team: nat, states: seq<State>, moves: seq<Move>, a: nat, i: nat)
    requires Connected(p) && Run(p, team, states, moves) && a < |moves| && i < |p.sources| && NoOvershoot(p, i)
    requires Shape(p, states[a]) && Once(p, states[a], i)
    ensures Shape(p, states[a + 1]) && Once(p, states[a + 1], i)
  {
    RunKeepsInv(p, team, states, moves, a);
    assert StepAt(p, states, moves, a);
    OnceKept(p, states[a], moves[a], states[a + 1], i);
  }

  /** If no wave overshoots, a source is signalled at most once, in every run. */
  lemma {:induction false} SignalledOnce(p: Pipeline, team: nat, states: seq<State>, moves: seq<Move>, a: nat, i: nat)
    requires Connected(p) && Run(p, team, states, moves) && a < |states| && i < |p.sources| && NoOvershoot(p, i)
    ensures Shape(p, states[a]) && Once(p, states[a], i)
  {
    RunShape(p, team, states, moves, a);
    if a > 0 {
      SignalledOnce(p, team, states, moves, a - 1, i);
      RunOnceStep(p, team, states, moves, a - 1, i);
    }
  }

  // ----- Sources that never overshoot

  /** A wave asks for nothing beyond what any wave that needs it already asks for, and
    waves the source does not provide make it read nothing. */
  ghost predicate ClosedRequests(p: Pipeline, i: nat)
    requires i < |p.sources|
  {
    && (forall l: nat, w: nat :: Runs(p, l) && Runs(p, w) && WaveOf(w) in Reads(p, i, l) ==> Reads(p, i, w) <= Reads(p, i, l))
    && (forall w: nat :: Runs(p, w) && WaveOf(w) !in p.sources[i].dataLimit ==> Reads(p, i, w) == {})
  }

  lemma ClosedNeverOvershoots(p: Pipeline, i: nat)
    requires i < |p.sources| && ClosedRequests(p, i)
    ensures NoOvershoot(p, i)
  {
    forall loops, w | AllRun(p, loops) && Runs(p, w) && AllCovered(p, i, loops, Own(p, i))
      ensures AllCovered(p, i, loops, Reads(p, i, w))
    {
      if WaveOf(w) in p.sources[i].dataLimit {
        assert Covers(p, i, loops, WaveOf(w));
        var l :| l in loops && Runs(p, l) && WaveOf(w) in Reads(p, i, l);
        assert forall d :: d in Reads(p, i, w) ==> d in Reads(p, i, l);
      }
    }
  }

  /** The dependencies between the classes of a measurement file. */
  function MeasurementRequest(d: DataClass): DataClass {
    var o := d;
    var o := if Metrics in o then o + {Attributes, Contexts, Threads} else o;
    var o := if CtxTimepoints in o then o + {Contexts, Threads} else o;
    var o := if Threads in o then o + {Contexts} else o;
    var o := if Contexts in o then o + {References} else o;
    o
  }

  /** Class by class, what a request comes to. */
  lemma MeasurementRequestIs(d: DataClass)
    ensures var o := MeasurementRequest(d);
            && (Attributes in o <==> Attributes in d || Metrics in d)
            && (Threads in o <==> Threads in d || Metrics in d || CtxTimepoints in d)
            && (Contexts in o <==> Contexts in d || Threads in d || Metrics in d || CtxTimepoints in d)
            && (References in o <==> References in d || Contexts in o)
            && (Metrics in o <==> Metrics in d)
            && (CtxTimepoints in o <==> CtxTimepoints in d)
            && (MetricTimepoints in o <==> MetricTimepoints in d)
  {
  }

  /** Measurement files, which provide all the waves, are signalled once. */
  lemma MeasurementsSignalOnce(p: Pipeline, i: nat)
    requires i < |p.sources| && WAVES <= p.sources[i].dataLimit
    requires forall d :: p.sources[i].request(d) == MeasurementRequest(d)
    ensures (forall d :: d <= p.sources[i].request(d)) && NoOvershoot(p, i)
  {
    assert ClosedRequests(p, i) by {
      forall l: nat, w: nat | Runs(p, l) && Runs(p, w) && WaveOf(w) in Reads(p, i, l)
        ensures Reads(p, i, w) <= Reads(p, i, l)
      {
        assert p.sources[i].request({WaveOf(l)}) == MeasurementRequest({WaveOf(l)});
        assert p.sources[i].request({WaveOf(w)}) == MeasurementRequest({WaveOf(w)});
      }
      forall w: nat | Runs(p, w)
        ensures WaveOf(w) in p.sources[i].dataLimit
      {
      }
    }
    ClosedNeverOvershoots(p, i);
  }
}
