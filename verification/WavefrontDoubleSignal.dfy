/** If some wave overshoots, some run signals a source twice: all iterations are first
  handed out to threads of their own, which then serve the source in a bad order. */
module WavefrontDoubleSignal {
  import opened Common
  import opened Wavefronts
  import opened WavefrontRuns
  import opened WavefrontInvariants
  import opened WavefrontTheorems
  import opened WavefrontSignals

  ghost predicate Reachable(p: Pipeline, team: nat, s: State) {
    exists states, moves :: Run(p, team, states, moves) && states[|moves|] == s
  }

  lemma ReachInitial(p: Pipeline, team: nat)
    ensures Reachable(p, team, Initial(p, team))
  {
    assert Run(p, team, [Initial(p, team)], []);
  }

  lemma ReachStep(p: Pipeline, team: nat, s: State, m: Move, s': State)
    requires Reachable(p, team, s) && Step(p, s, m, s')
    ensures Reachable(p, team, s')
  {
    var states, moves :| Run(p, team, states, moves) && states[|moves|] == s;
    var more, steps := states + [s'], moves + [m];
    forall a | 0 <= a < |steps|
      ensures StepAt(p, more, steps, a)
    {
      if a < |moves| { assert StepAt(p, states, moves, a); }
    }
    assert Run(p, team, more, steps) && more[|steps|] == s';
  }

  lemma ReachInv(p: Pipeline, team: nat, s: State)
    requires Connected(p) && Reachable(p, team, s)
    ensures Inv(p, s) && |s.pcs| == team
  {
    var states, moves :| Run(p, team, states, moves) && states[|moves|] == s;
    RunKeepsInv(p, team, states, moves, |moves|);
  }

  // ----- Handing out all iterations

  const FRESH := SourceState({}, {}, None, 0, [], {})

  /** No source has been touched; threads from q on have done nothing. */
  ghost predicate Parked(p: Pipeline, s: State, q: nat)
    requires Shape(p, s)
  {
    && (forall i :: 0 <= i < |s.sources| ==> s.sources[i] == FRESH)
    && (forall t :: 0 <= t < |s.pcs| ==> s.pcs[t].Fetch? || s.pcs[t].First? || s.pcs[t].Unblock? || s.pcs[t].Ask?)
    && (forall t :: q <= t < |s.pcs| ==> s.pcs[t] == Fetch(0))
    && (forall loop, i :: 0 <= loop < END && 0 <= i < |s.status[loop]| ==> s.status[loop][i] != Done)
  }

  /** Thread t goes up to the first loop, before the finishing wave, that has
    iterations left. */
  lemma Rise(p: Pipeline, team: nat, s: State, t: nat, loop: nat) returns (s': State)
    requires Connected(p) && Reachable(p, team, s) && Shape(p, s) && Parked(p, s, t + 1)
    requires t < |s.pcs| && s.pcs[t].Fetch? && s.pcs[t].loop <= loop < FINISH
    requires forall l :: 0 <= l < loop ==> Todo !in s.status[l]
    ensures Reachable(p, team, s') && Shape(p, s') && Parked(p, s', t + 1)
    ensures |s'.pcs| == |s.pcs| && s'.pcs[t] == Fetch(loop) && s'.status == s.status
    decreases loop - s.pcs[t].loop
  {
    if s.pcs[t].loop == loop {
      s' := s;
    } else {
      var up := Next(p, s, t, 0);
      ShapeKept(p, s, t, 0);
      ReachStep(p, team, s, Move(t, 0), up);
      s' := Rise(p, team, up, t, loop);
    }
  }

  lemma Park(p: Pipeline, team: nat, s: State, q: nat, loop: nat, n: nat) returns (s': State)
    requires Connected(p) && Reachable(p, team, s) && Shape(p, s) && Parked(p, s, q) && q < |s.pcs| && loop < FINISH
    requires forall l :: 0 <= l < loop ==> Todo !in s.status[l]
    requires n < |s.status[loop]| && s.status[loop][n] == Todo
    ensures Reachable(p, team, s') && Shape(p, s') && Parked(p, s', q + 1) && |s'.pcs| == |s.pcs|
    ensures AllTodos(s'.status) == AllTodos(s.status) - 1
  {
    var up := Rise(p, team, s, q, loop);
    s' := Next(p, up, q, n);
    ShapeKept(p, up, q, n);
    ReachStep(p, team, up, Move(q, n), s');
    MarkTodos(up, loop, n, Taken(q));
  }

  lemma {:induction false} TodoCounts(status: seq<Status>)
    requires Todo in status
    ensures Todos(status) > 0
  {
    if status[0] != Todo { TodoCounts(status[1..]); }
  }

  lemma {:induction false} TodoCountsIn(status: seq<seq<Status>>, loop: nat)
    requires loop < |status| && Todo in status[loop]
    ensures AllTodos(status) > 0
  {
    if loop == 0 { TodoCounts(status[0]); } else { TodoCountsIn(status[1..], loop - 1); }
  }

  lemma FirstLeft(s: State, loop: nat) returns (first: nat)
    requires loop < FINISH && |s.status| == END && Todo in s.status[loop]
    ensures first < FINISH && Todo in s.status[first] && forall l :: 0 <= l < first ==> Todo !in s.status[l]
    decreases loop
  {
    if l: nat :| l < loop && Todo in s.status[l] {
      first := FirstLeft(s, l);
    } else {
      first := loop;
    }
  }

  lemma ParkAll(p: Pipeline, team: nat, s: State, q: nat) returns (s': State)
    requires Connected(p) && Reachable(p, team, s) && Shape(p, s) && Parked(p, s, q)
    requires q + AllTodos(s.status) <= |s.pcs|
    ensures Reachable(p, team, s') && Shape(p, s') && Parked(p, s', |s'.pcs|)
    ensures forall l :: 0 <= l < FINISH ==> Todo !in s'.status[l]
    decreases AllTodos(s.status)
  {
    if loop: nat :| loop < FINISH && Todo in s.status[loop] {
      var first := FirstLeft(s, loop);
      var n: nat :| n < |s.status[first]| && s.status[first][n] == Todo;
      TodoCountsIn(s.status, first);
      var next := Park(p, team, s, q, first, n);
      s' := ParkAll(p, team, next, q + 1);
    } else {
      s' := s;
    }
  }

  // ----- Serving one source

  /** A thread waits for source i on behalf of the wave. */
  ghost predicate Waiting(p: Pipeline, s: State, i: nat, loop: nat)
    requires Shape(p, s) && i < |p.sources| && Runs(p, loop)
  {
    var st := s.status[loop][i];
    st.Taken? && st.owner < |s.pcs| && s.pcs[st.owner] == Ask(loop, i)
  }

  /** Exactly the waves in `served` have been served, and the others wait. */
  ghost predicate Serving(p: Pipeline, s: State, i: nat, served: set<nat>)
    requires Shape(p, s) && i < |p.sources|
  {
    var src := s.sources[i];
    && src.holder == None && src.served == served
    && AllCovered(p, i, served, src.got)
    && (Own(p, i) == {} ==> src.signals > 0)
    && (forall loop: nat :: Runs(p, loop) && loop !in served ==> Waiting(p, s, i, loop))
  }

  lemma StartServing(p: Pipeline, team: nat, s: State, i: nat) returns (s': State)
    requires Connected(p) && Reachable(p, team, s) && Shape(p, s) && Parked(p, s, |s.pcs|) && i < |p.sources|
    requires forall l :: 0 <= l < FINISH ==> Todo !in s.status[l]
    ensures Reachable(p, team, s') && Shape(p, s') && Serving(p, s', i, {})
  {
    ReachInv(p, team, s);
    assert s.status[UNBLOCK][i] in s.status[UNBLOCK];
    assert OwnerWorks(s.pcs, UNBLOCK, i, s.status[UNBLOCK][i]);
    var t := s.status[UNBLOCK][i].owner;
    s' := Next(p, s, t, 0);
    ShapeKept(p, s, t, 0);
    ReachStep(p, team, s, Move(t, 0), s');
    forall loop: nat | Runs(p, loop)
      ensures Waiting(p, s', i, loop)
    {
      assert s.status[loop][i] in s.status[loop];
      assert OwnerWorks(s.pcs, loop, i, s.status[loop][i]);
    }
  }

  /** One more wave: two steps of its thread. */
  lemma ServeOne(p: Pipeline, team: nat, s: State, i: nat, served: set<nat>, loop: nat) returns (s': State)
    requires Connected(p) && Reachable(p, team, s) && Shape(p, s) && i < |p.sources| && Serving(p, s, i, served)
    requires Runs(p, loop) && loop !in served
    ensures Reachable(p, team, s') && Shape(p, s') && Serving(p, s', i, served + {loop})
    ensures s'.sources[i].signals == s.sources[i].signals + MoreSignals(p, i, s.sources[i].got, loop)
  {
    ReachInv(p, team, s);
    assert HolderReads(p, s.pcs, s.sources[i], i);
    assert Waiting(p, s, i, loop);
    var src, t := s.sources[i], s.status[loop][i].owner;
    s' := TwoSteps(p, team, s, t, loop, i);
    CoversMore(p, i, served, loop, src.got);
    forall l: nat | Runs(p, l) && l !in served + {loop}
      ensures Waiting(p, s', i, l)
    {
      assert Waiting(p, s, i, l);
    }
  }

  /** Whether the wave makes the source signal. */
  ghost function MoreSignals(p: Pipeline, i: nat, got: DataClass, loop: nat): nat
    requires i < |p.sources| && IsWave(loop)
  {
    if !(Reads(p, i, loop) <= got) && Own(p, i) <= got + Reads(p, i, loop) then 1 else 0
  }

  lemma CoversMore(p: Pipeline, i: nat, served: set<nat>, loop: nat, got: DataClass)
    requires i < |p.sources| && Runs(p, loop) && AllCovered(p, i, served, got)
    ensures AllCovered(p, i, served + {loop}, got + Reads(p, i, loop))
  {
    forall d | d in got + Reads(p, i, loop)
      ensures Covers(p, i, served + {loop}, d)
    {
      if d in got {
        assert Covers(p, i, served, d);
        var l :| l in served && Runs(p, l) && d in Reads(p, i, l);
        assert l in served + {loop};
      } else {
        assert loop in served + {loop} && d in Reads(p, i, loop);
      }
    }
  }

  /** Locking and unlocking read what the wave asks for. */
  lemma LockUnlock(p: Pipeline, i: nat, src: SourceState, t: nat, loop: nat)
    requires i < |p.sources| && Runs(p, loop) && src.got == src.read
    ensures var req := Reads(p, i, loop) - src.read;
            Unlocking(Locking(src, t, req), loop, req, Own(p, i)) ==
            src.(read := src.got + Reads(p, i, loop),
                 got := src.got + Reads(p, i, loop),
                 holder := None,
                 signals := src.signals + MoreSignals(p, i, src.got, loop),
                 asked := Locking(src, t, req).asked,
                 served := src.served + {loop})
  {
    var req := Reads(p, i, loop) - src.read;
    assert src.read + req == src.got + Reads(p, i, loop);
    assert req == {} <==> Reads(p, i, loop) <= src.got;
  }

  lemma TwoSteps(p: Pipeline, team: nat, s: State, t: nat, loop: nat, i: nat) returns (s': State)
    requires Reachable(p, team, s) && Shape(p, s) && t < |s.pcs| && i < |p.sources|
    requires Runs(p, loop) && s.pcs[t] == Ask(loop, i)
    requires s.sources[i].holder == None && s.sources[i].got == s.sources[i].read
    ensures Reachable(p, team, s') && Shape(p, s')
    ensures s'.pcs == s.pcs[t := Count(loop, i)] && s'.status == s.status
    ensures s'.sources[i].holder == None && s'.sources[i].served == s.sources[i].served + {loop}
    ensures s'.sources[i].got == s.sources[i].got + Reads(p, i, loop)
    ensures s'.sources[i].signals == s.sources[i].signals + MoreSignals(p, i, s.sources[i].got, loop)
  {
    var mid := Next(p, s, t, 0);
    ShapeKept(p, s, t, 0);
    ReachStep(p, team, s, Move(t, 0), mid);
    s' := Next(p, mid, t, 0);
    ShapeKept(p, mid, t, 0);
    ReachStep(p, team, mid, Move(t, 0), s');
    LockUnlock(p, i, s.sources[i], t, loop);
  }

  lemma ServeAll(p: Pipeline, team: nat, s: State, i: nat, served: set<nat>, loops: set<nat>) returns (s': State)
    requires Connected(p) && Reachable(p, team, s) && Shape(p, s) && i < |p.sources| && Serving(p, s, i, served)
    requires served !! loops && AllRun(p, loops)
    ensures Reachable(p, team, s') && Shape(p, s') && Serving(p, s', i, served + loops)
    decreases loops
  {
    if loops == {} {
      assert served + loops == served;
      s' := s;
    } else {
      var loop :| loop in loops;
      var next := ServeOne(p, team, s, i, served, loop);
      s' := ServeAll(p, team, next, i, served + {loop}, loops - {loop});
      assert served + {loop} + (loops - {loop}) == served + loops;
    }
  }

  /** An overshooting wave: serve the others first. */
  lemma OvershootSignalsTwice(p: Pipeline, i: nat, loops: set<nat>, w: nat) returns (team: nat, s: State)
    requires Connected(p) && i < |p.sources| && Overshoots(p, i, loops, w)
    ensures Reachable(p, team, s) && |s.sources| == |p.sources| && s.sources[i].signals >= 2
  {
    team := AllTodos(Initial(p, 0).status);
    ReachInitial(p, team);
    var start := Initial(p, team);
    assert start.status == Initial(p, 0).status;
    var parked := ParkAll(p, team, start, 0);
    var ready := StartServing(p, team, parked, i);
    assert {} + loops == loops;
    var covered := ServeAll(p, team, ready, i, {}, loops);
    CoveredSignals(p, team, covered, i, loops, w);
    s := ServeOne(p, team, covered, i, loops, w);
  }

  lemma CoveredSignals(p: Pipeline, team: nat, s: State, i: nat, loops: set<nat>, w: nat)
    requires Connected(p) && Reachable(p, team, s) && Shape(p, s) && i < |p.sources| && Serving(p, s, i, loops)
    requires Overshoots(p, i, loops, w)
    ensures Own(p, i) <= s.sources[i].got && s.sources[i].signals > 0
    ensures !(Reads(p, i, w) <= s.sources[i].got)
  {
    ReachInv(p, team, s);
    assert SourceOk(p, i, s.sources[i]);
    CoveredIsRead(p, i, s.sources[i], Own(p, i));
  }

  /** A source is signalled at most once in all runs if and only if no wave overshoots. */
  lemma SignalledOnceIff(p: Pipeline, i: nat)
    requires Connected(p) && i < |p.sources|
    ensures (forall team, s :: Reachable(p, team, s) ==> |s.sources| == |p.sources| && s.sources[i].signals <= 1)
            <==> NoOvershoot(p, i)
  {
    if NoOvershoot(p, i) {
      forall team, s | Reachable(p, team, s)
        ensures |s.sources| == |p.sources| && s.sources[i].signals <= 1
      {
        var states, moves :| Run(p, team, states, moves) && states[|moves|] == s;
        SignalledOnce(p, team, states, moves, |moves|, i);
      }
    } else {
      var loops, w :| Overshoots(p, i, loops, w);
      var team, s := OvershootSignalsTwice(p, i, loops, w);
    }
  }

  // ----- A pipeline that signals a source twice

  function RequestAlso(d: DataClass): DataClass {
    if References in d then d + {Metrics} else d
  }

  /** A sink with two waves. The first source has only one of them, but reads
    something more when it is asked for the other. */
  function TwicePipeline(): Pipeline {
    Pipeline(
      [Sink({Attributes, References, Threads, Metrics}, {Attributes, References}, false, {})],
      [Source({Attributes, Metrics}, RequestAlso), Source({References}, (d: DataClass) => d)],
      {Attributes, References, Metrics}, {Attributes, References}, {})
  }

  lemma TwiceConnected()
    ensures Connected(TwicePipeline()) && RequestsCover(TwicePipeline())
    ensures Scheduled(TwicePipeline()) && Chained(TwicePipeline().sinks)
    ensures Granted(TwicePipeline().sinks, [Wish({Metrics, References}, {Attributes, References}, false)])
  {
    var p := TwicePipeline();
    var w := Wish({Metrics, References}, {Attributes, References}, false);
    assert Accepted(w) == p.sinks[0].dataLimit;
    assert Accepted(w) * w.wavefronts == p.sinks[0].waveLimit;
    assert Granted(p.sinks, [w]);
    TwiceScheduled(p);
    assert Chained(p.sinks);
    ConnectionHolds(p, [w]);
  }

  lemma TwiceScheduled(p: Pipeline)
    requires p == TwicePipeline()
    ensures Scheduled(p)
  {
    assert p.sinks[0].waveLimit == p.scheduledWaves;
    forall d: Class
      ensures Provided(p.sources, d) <==> d == Attributes || d == Metrics || d == References
      ensures Requested(p.sinks, d) <==> d in p.sinks[0].dataLimit
      ensures Announced(p.sinks, d) <==> d in p.sinks[0].waveLimit
    {
      assert d in p.sources[0].dataLimit <==> d == Attributes || d == Metrics;
      assert d in p.sources[1].dataLimit <==> d == References;
    }
  }

  /** Once that source has read its wave, the other one makes it read again, and some
    run signals it twice. */
  lemma OvershootExample() returns (team: nat, s: State)
    ensures Connected(TwicePipeline()) && RequestsCover(TwicePipeline()) && Overshoots(TwicePipeline(), 0, {2}, 3)
    ensures Reachable(TwicePipeline(), team, s) && |s.sources| == 2 && s.sources[0].signals >= 2
  {
    var p := TwicePipeline();
    TwiceConnected();
    assert Own(p, 0) == {Attributes};
    assert Attributes in Reads(p, 0, 2);
    assert Covers(p, 0, {2}, Attributes);
    assert Metrics in Reads(p, 0, 3) && Metrics !in Reads(p, 0, 2);
    assert !Covers(p, 0, {2}, Metrics);
    team, s := OvershootSignalsTwice(p, 0, {2}, 3);
  }
}
