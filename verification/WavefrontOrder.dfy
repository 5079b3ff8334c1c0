/** In which order the waves of classes come in every run, and what exactly sources are made
  to read. */
module WavefrontOrder {
  import opened Wavefronts
  import opened WavefrontRuns
  import opened WavefrontInvariants
  import opened WavefrontTheorems

  // ----- The order of the waves

  /** Attributes come first, then references, threads and contexts. */
  ghost predicate Precedes(a: Class, b: Class) {
    || (a == Attributes && (b == References || b == Threads || b == Contexts))
    || (a == References && (b == Threads || b == Contexts))
    || (a == Threads && b == Contexts)
  }

  /** No iteration of a later loop is handed out while an earlier loop has some left. */
  ghost predicate InOrder(status: seq<seq<Status>>) {
    forall a, b, i :: 0 <= a < b < |status| && 0 <= i < |status[b]| && status[b][i] != Todo ==> Todo !in status[a]
  }

  lemma MarkInOrder(status: seq<seq<Status>>, loop: nat, i: nat, st: Status)
    requires InOrder(status) && loop < |status| && i < |status[loop]| && st != Todo
    requires forall a :: 0 <= a < loop ==> Todo !in status[a]
    ensures InOrder(status[loop := status[loop][i := st]])
  {
    var status' := status[loop := status[loop][i := st]];
    forall a | 0 <= a < |status|
      ensures Todo in status'[a] ==> Todo in status[a]
    {
      if Todo in status'[a] {
        var k :| 0 <= k < |status'[a]| && status'[a][k] == Todo;
        assert status[a][k] == Todo;
      }
    }
    forall a, b, k | 0 <= a < b < |status'| && 0 <= k < |status'[b]| && status'[b][k] != Todo
      ensures Todo !in status'[a]
    {
      if b != loop || k != i { assert status[b][k] != Todo; }
    }
  }

  lemma WorkInOrder(p: Pipeline, s: State, t: nat)
    requires Shape(p, s) && Tasks(s.pcs, s.status) && t < |s.pcs|
    ensures forall a :: 0 <= a < LoopOf(s.pcs[t]) && a < |s.status| ==> Todo !in s.status[a]
  {
    forall a | 0 <= a < LoopOf(s.pcs[t]) && a < |s.status|
      ensures Todo !in s.status[a]
    {
      assert HandedOut(s.status[a]);
    }
  }

  lemma StepInOrder(p: Pipeline, s: State, t: nat, n: nat)
    requires Shape(p, s) && Enabled(p, s, t, n) && Tasks(s.pcs, s.status) && InOrder(s.status)
    ensures InOrder(Next(p, s, t, n).status)
  {
    WorkInOrder(p, s, t);
    assert Holds(s.status, t, s.pcs[t]);
    match s.pcs[t]
    case Fetch(loop) => if Todo in s.status[loop] { MarkInOrder(s.status, loop, n, Taken(t)); }
    case First(k) => MarkInOrder(s.status, 0, k, Done);
    case Unblock(i) => MarkInOrder(s.status, UNBLOCK, i, Done);
    case Locked(loop, i, req) => if loop == FINISH { MarkInOrder(s.status, loop, i, Done); }
    case Count(loop, i) => MarkInOrder(s.status, loop, i, Done);
    case _ =>
  }

  lemma {:induction false} RunInOrder(p: Pipeline, team: nat, states: seq<State>, moves: seq<Move>, a: nat)
    requires Connected(p) && Run(p, team, states, moves) && a < |states|
    ensures InOrder(states[a].status)
  {
    if a > 0 {
      RunInOrder(p, team, states, moves, a - 1);
      RunKeepsInv(p, team, states, moves, a - 1);
      assert StepAt(p, states, moves, a - 1);
      MoveInOrder(p, states[a - 1], moves[a - 1], states[a]);
    } else {
      StartsInOrder(p, team, states[0]);
    }
  }

  lemma StartsInOrder(p: Pipeline, team: nat, s: State)
    requires s == Initial(p, team)
    ensures InOrder(s.status)
  {
  }

  lemma MoveInOrder(p: Pipeline, s: State, m: Move, s': State)
    requires Inv(p, s) && Step(p, s, m, s') && InOrder(s.status)
    ensures InOrder(s'.status)
  {
    StepInOrder(p, s, m.t, m.n);
  }

  /** Some source has been handed out for the wave of class d, or even for the finishing
    wave. */
  ghost predicate Begun(p: Pipeline, s: State, d: Class)
    requires Shape(p, s)
  {
    exists loop: nat, i: nat :: Runs(p, loop) && WaveOf(loop) == d && i < |s.status[loop]| && s.status[loop][i] != Todo
  }

  ghost predicate Finishing(p: Pipeline, s: State)
    requires Shape(p, s)
  {
    exists i: nat :: i < |s.status[FINISH]| && s.status[FINISH][i] != Todo
  }

  /** All sources have been handed out for the wave of class d. */
  ghost predicate AllBegun(p: Pipeline, s: State, d: Class)
    requires Shape(p, s)
  {
    forall loop: nat :: Runs(p, loop) && WaveOf(loop) == d ==> Todo !in s.status[loop]
  }

  /** Every class that has waves has one of its own. */
  lemma OneWaveEach(d: Class)
    ensures d in WAVES <==> d == Attributes || d == References || d == Threads || d == Contexts
    ensures d in WAVES <==> exists loop :: IsWave(loop) && WaveOf(loop) == d
    ensures forall a: nat, b: nat :: IsWave(a) && IsWave(b) && WaveOf(a) == WaveOf(b) ==> a == b
  {
    if d in WAVES { var loop := LoopOfWave(d); }
  }

  lemma OrderOfLoops(a: nat, b: nat)
    requires IsWave(a) && IsWave(b) && Precedes(WaveOf(a), WaveOf(b))
    ensures a < b
  {
  }

  /** In every run, a wave is begun only when all sources have been handed out for the
    waves that precede it, and the finishing wave after all of them. */
  lemma WaveOrder(p: Pipeline, team: nat, states: seq<State>, moves: seq<Move>, a: nat, x: Class, y: Class)
    requires Connected(p) && Run(p, team, states, moves) && a < |states|
    ensures Shape(p, states[a])
    ensures Precedes(x, y) && Begun(p, states[a], y) ==> AllBegun(p, states[a], x)
    ensures Finishing(p, states[a]) ==> AllBegun(p, states[a], x)
  {
    RunKeepsInv(p, team, states, moves, a);
    RunInOrder(p, team, states, moves, a);
    var s := states[a];
    if Precedes(x, y) && Begun(p, s, y) {
      var b: nat, i: nat :| Runs(p, b) && WaveOf(b) == y && i < |s.status[b]| && s.status[b][i] != Todo;
      forall loop: nat | Runs(p, loop) && WaveOf(loop) == x
        ensures Todo !in s.status[loop]
      {
        OrderOfLoops(loop, b);
      }
    }
  }

  // ----- What sources read

  /** Class d is provided by source i and belongs to what is requested of it for one of the
    scheduled waves, or for the finishing wave. */
  ghost predicate Wanted(p: Pipeline, i: nat, d: Class)
    requires i < |p.sources|
  {
    && d in p.sources[i].dataLimit
    && ((exists w :: w in p.scheduledWaves && d in p.sources[i].request({w}))
        || d in p.sources[i].request(p.scheduled - p.scheduledWaves))
  }

  ghost predicate OnlyWanted(p: Pipeline, sources: seq<SourceState>) {
    |sources| == |p.sources| && forall i, d :: 0 <= i < |sources| && (d in sources[i].read || d in sources[i].got) ==> Wanted(p, i, d)
  }

  lemma ReadsAreWanted(p: Pipeline, i: nat, loop: nat, d: Class)
    requires i < |p.sources| && (Runs(p, loop) || loop == FINISH) && d in Reads(p, i, loop)
    ensures Wanted(p, i, d)
  {
  }

  lemma StepOnlyWanted(p: Pipeline, s: State, t: nat, n: nat)
    requires Inv(p, s) && Enabled(p, s, t, n) && OnlyWanted(p, s.sources)
    ensures OnlyWanted(p, Next(p, s, t, n).sources)
  {
    match s.pcs[t]
    case Ask(loop, i) =>
      forall d | d in Reads(p, i, loop) { ReadsAreWanted(p, i, loop, d); }
    case Locked(loop, i, req) =>
      assert HasLock(s.sources, t, s.pcs[t]);
      assert HolderReads(p, s.pcs, s.sources[i], i);
      forall d | d in Reads(p, i, loop) { ReadsAreWanted(p, i, loop, d); }
    case _ =>
  }

  lemma {:induction false} RunOnlyWanted(p: Pipeline, team: nat, states: seq<State>, moves: seq<Move>, a: nat)
    requires Connected(p) && Run(p, team, states, moves) && a < |states|
    ensures OnlyWanted(p, states[a].sources)
  {
    if a > 0 {
      RunOnlyWanted(p, team, states, moves, a - 1);
      RunKeepsInv(p, team, states, moves, a - 1);
      assert StepAt(p, states, moves, a - 1);
      MoveOnlyWanted(p, states[a - 1], moves[a - 1], states[a]);
    } else {
      StartsOnlyWanted(p, team, states[0]);
    }
  }

  lemma StartsOnlyWanted(p: Pipeline, team: nat, s: State)
    requires s == Initial(p, team)
    ensures OnlyWanted(p, s.sources)
  {
  }

  lemma MoveOnlyWanted(p: Pipeline, s: State, m: Move, s': State)
    requires Inv(p, s) && Step(p, s, m, s') && OnlyWanted(p, s.sources)
    ensures OnlyWanted(p, s'.sources)
  {
    StepOnlyWanted(p, s, m.t, m.n);
  }

  lemma WantedIsRead(p: Pipeline, s: State, i: nat, d: Class)
    requires Connected(p) && Inv(p, s) && Finished(s) && s.pcs != [] && i < |p.sources| && Wanted(p, i, d)
    ensures d in s.sources[i].got
  {
    assert SourceOk(p, i, s.sources[i]);
    if d in p.sources[i].request(p.scheduled - p.scheduledWaves) {
      LoopDone(p, s, FINISH);
      assert Through(p, s.pcs, s.sources[i], FINISH, i, s.status[FINISH][i]);
      assert d in Reads(p, i, FINISH);
    } else {
      var w :| w in p.scheduledWaves && d in p.sources[i].request({w});
      var loop := LoopOfWave(w);
      LoopDone(p, s, loop);
      assert Through(p, s.pcs, s.sources[i], loop, i, s.status[loop][i]);
      assert d in Reads(p, i, loop);
    }
  }

  /** When all threads are through, every source has read exactly what was wanted of it;
    until then, nothing else. */
  lemma ReadExactly(p: Pipeline, team: nat, states: seq<State>, moves: seq<Move>, a: nat, i: nat)
    requires Connected(p) && Run(p, team, states, moves) && a < |states| && i < |p.sources|
    ensures |states[a].sources| == |p.sources|
    ensures forall d :: d in states[a].sources[i].got ==> Wanted(p, i, d)
    ensures team > 0 && Finished(states[a]) ==> forall d :: d in states[a].sources[i].got <==> Wanted(p, i, d)
  {
    RunKeepsInv(p, team, states, moves, a);
    RunOnlyWanted(p, team, states, moves, a);
    forall d | team > 0 && Finished(states[a]) && Wanted(p, i, d)
      ensures d in states[a].sources[i].got
    {
      WantedIsRead(p, states[a], i, d);
    }
  }
}
