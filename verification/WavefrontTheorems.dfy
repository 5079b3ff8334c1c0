/** What holds in every run of the pipeline, however its threads interleave. */
module WavefrontTheorems {
  import opened Wavefronts
  import opened WavefrontRuns
  import opened WavefrontInvariants

  /** A thread takes a step; n is the iteration it gets, if it asks for one. */
  datatype Move = Move(t: nat, n: nat)

  ghost predicate Step(p: Pipeline, s: State, m: Move, s': State) {
    Shape(p, s) && Enabled(p, s, m.t, m.n) && s' == Next(p, s, m.t, m.n)
  }

  ghost predicate StepAt(p: Pipeline, states: seq<State>, moves: seq<Move>, a: int) {
    0 <= a < |moves| && a + 1 < |states| && Step(p, states[a], moves[a], states[a + 1])
  }

  ghost predicate Run(p: Pipeline, team: nat, states: seq<State>, moves: seq<Move>) {
    && |states| == |moves| + 1
    && states[0] == Initial(p, team)
    && forall a :: 0 <= a < |moves| ==> StepAt(p, states, moves, a)
  }

  lemma {:induction false} RunKeepsInv(p: Pipeline, team: nat, states: seq<State>, moves: seq<Move>, a: nat)
    requires Connected(p) && Run(p, team, states, moves) && a < |states|
    ensures Inv(p, states[a]) && |states[a].pcs| == team
  {
    if a == 0 {
      StartsInv(p, team, states[0]);
    } else {
      RunKeepsInv(p, team, states, moves, a - 1);
      assert StepAt(p, states, moves, a - 1);
      StepKeepsInv(p, states[a - 1], moves[a - 1], states[a]);
    }
  }

  lemma StartsInv(p: Pipeline, team: nat, s: State)
    requires Connected(p) && s == Initial(p, team)
    ensures Inv(p, s) && |s.pcs| == team
  {
    InvInitial(p, team);
  }

  lemma StepKeepsInv(p: Pipeline, s: State, m: Move, s': State)
    requires Connected(p) && Inv(p, s) && Step(p, s, m, s')
    ensures Inv(p, s') && |s'.pcs| == |s.pcs|
  {
    InvKept(p, s, m.t, m.n);
  }

  ghost predicate Finished(s: State) {
    forall t :: 0 <= t < |s.pcs| ==> s.pcs[t] == Fetch(END)
  }

  // ----- Safety

  lemma LoopOfWave(d: Class) returns (loop: nat)
    requires d in WAVES
    ensures IsWave(loop) && WaveOf(loop) == d
  {
    loop := if d == Attributes then 2 else if d == References then 3 else if d == Threads then 4 else 5;
  }

  /** A wave that was counted down has been read by all sources. */
  lemma CountedIsRead(p: Pipeline, s: State, loop: nat, i: nat)
    requires RequestsCover(p) && Inv(p, s) && Runs(p, loop) && s.countdowns[loop] == 0 && i < |p.sources|
    requires WaveOf(loop) in p.sources[i].dataLimit
    ensures WaveOf(loop) in s.sources[i].got
  {
    PendingAll(s.status[loop]);
    assert Through(p, s.pcs, s.sources[i], loop, i, s.status[loop][i]);
    assert {WaveOf(loop)} <= p.sources[i].request({WaveOf(loop)});
    assert WaveOf(loop) in Reads(p, i, loop);
  }

  /** What a sink was told of has been read by every source that provides it. */
  lemma ToldAfterRead(p: Pipeline, s: State, k: nat, i: nat, d: Class)
    requires Connected(p) && RequestsCover(p) && Inv(p, s) && k < |p.sinks| && i < |p.sources|
    requires d in s.sinks[k].delivered && d in p.sources[i].dataLimit
    ensures d in s.sources[i].got
  {
    assert SinkOk(p, p.sinks[k], s.sinks[k]);
    assert d in p.scheduledWaves;
    var loop := LoopOfWave(d);
    assert Spreads(s, loop);
    CountedIsRead(p, s, loop, i);
  }

  lemma Safety(p: Pipeline, team: nat, states: seq<State>, moves: seq<Move>, a: nat)
    requires Connected(p) && RequestsCover(p) && Run(p, team, states, moves) && a < |states|
    ensures |states[a].sinks| == |p.sinks| && |states[a].sources| == |p.sources|
    ensures forall k, i, d ::
              0 <= k < |p.sinks| && 0 <= i < |p.sources| && d in states[a].sinks[k].delivered && d in p.sources[i].dataLimit ==>
              d in states[a].sources[i].got
    ensures forall k :: 0 <= k < |p.sinks| ==> Grows(states[a].sinks[k].log)
  {
    RunKeepsInv(p, team, states, moves, a);
    var s := states[a];
    forall k, i, d | 0 <= k < |p.sinks| && 0 <= i < |p.sources| && d in s.sinks[k].delivered && d in p.sources[i].dataLimit
      ensures d in s.sources[i].got
    {
      ToldAfterRead(p, s, k, i, d);
    }
    forall k | 0 <= k < |p.sinks|
      ensures Grows(s.sinks[k].log)
    {
      assert SinkOk(p, p.sinks[k], s.sinks[k]);
    }
  }

  /** Delivering is visible in the log: every step keeps or extends it, by the new
    delivered set. */
  lemma LogRecords(p: Pipeline, s: State, m: Move, s': State, k: nat)
    requires Connected(p) && Inv(p, s) && Step(p, s, m, s') && k < |p.sinks|
    ensures |s'.sinks| == |s.sinks| == |p.sinks|
    ensures if s'.sinks[k].delivered == s.sinks[k].delivered then s'.sinks[k].log == s.sinks[k].log
            else s'.sinks[k].log == s.sinks[k].log + [s'.sinks[k].delivered]
  {
    InvKept(p, s, m.t, m.n);
    assert SinkOk(p, p.sinks[k], s.sinks[k]) && SinkOk(p, p.sinks[k], s'.sinks[k]);
    var log, log' := s.sinks[k].log, s'.sinks[k].log;
    if log' != log {
      assert log' == log + [s'.sinks[k].delivered];
      if log != [] { assert log'[|log| - 1] < log'[|log|]; }
    }
  }

  /** The ordered chain: once an ordered sink was told anything, all ordered sinks
    before it have been told all of their scheduled waves. */
  lemma Chain(p: Pipeline, s: State, j: nat, k: nat)
    requires Connected(p) && Inv(p, s) && j < k < |p.sinks| && p.sinks[j].ordered && p.sinks[k].ordered
    requires s.sinks[k].delivered != {}
    ensures p.sinks[j].waveLimit * p.scheduledWaves <= s.sinks[j].delivered
  {
    assert SinkOk(p, p.sinks[j], s.sinks[j]) && SinkOk(p, p.sinks[k], s.sinks[k]);
    forall d | d in p.sinks[k].priorDelay * p.scheduledWaves
      ensures d in s.sinks[j].state
    {
      var loop := LoopOfWave(d);
      assert Spreads(s, loop);
      assert Known(s.sinks, loop, k);
    }
  }

  lemma OrderedChain(p: Pipeline, team: nat, states: seq<State>, moves: seq<Move>, a: nat, j: nat, k: nat)
    requires Connected(p) && Run(p, team, states, moves) && a < |states|
    requires j < k < |p.sinks| && p.sinks[j].ordered && p.sinks[k].ordered
    ensures |states[a].sinks| == |p.sinks|
    ensures states[a].sinks[k].delivered != {} ==> p.sinks[j].waveLimit * p.scheduledWaves <= states[a].sinks[j].delivered
  {
    RunKeepsInv(p, team, states, moves, a);
    if states[a].sinks[k].delivered != {} { Chain(p, states[a], j, k); }
  }

  /** Sources read every class at most once, and the finishing wave only starts when
    the source has read all its waves. */
  lemma ReadingOrder(p: Pipeline, team: nat, states: seq<State>, moves: seq<Move>, a: nat)
    requires Connected(p) && RequestsCover(p) && Run(p, team, states, moves) && a < |states|
    ensures |states[a].sources| == |p.sources|
    ensures forall i :: 0 <= i < |p.sources| ==> AskedOnce(states[a].sources[i].asked, states[a].sources[i].read)
    ensures forall t :: 0 <= t < |states[a].pcs| && states[a].pcs[t].Locked? && states[a].pcs[t].loop == FINISH ==>
              var i := states[a].pcs[t].i;
              i < |p.sources| && Own(p, i) <= states[a].sources[i].got
  {
    RunKeepsInv(p, team, states, moves, a);
    var s := states[a];
    forall t | 0 <= t < |s.pcs| && s.pcs[t].Locked? && s.pcs[t].loop == FINISH
      ensures s.pcs[t].i < |p.sources| && Own(p, s.pcs[t].i) <= s.sources[s.pcs[t].i].got
    {
      var i := s.pcs[t].i;
      assert HasLock(s.sources, t, s.pcs[t]);
      assert HolderReads(p, s.pcs, s.sources[i], i);
      SignalledHasWaves(p, i, s.sources[i]);
    }
  }

  lemma SignalledHasWaves(p: Pipeline, i: nat, src: SourceState)
    requires i < |p.sources| && SourceOk(p, i, src) && src.signals > 0
    ensures Own(p, i) <= src.got
  {
  }

  // ----- Completeness

  lemma SinkComplete(p: Pipeline, s: State, k: nat)
    requires Connected(p) && Inv(p, s) && Finished(s) && s.pcs != [] && k < |p.sinks|
    ensures s.sinks[k].delivered == p.sinks[k].waveLimit
  {
    forall d | d in p.scheduledWaves
      ensures d in s.sinks[k].state
    {
      var loop := LoopOfWave(d);
      LoopDone(p, s, loop);
      PendingAll(s.status[loop]);
      assert Spreads(s, loop);
      assert Known(s.sinks, loop, |s.sinks|);
    }
    LoopDone(p, s, 0);
    assert SinkOk(p, p.sinks[k], s.sinks[k]);
  }

  lemma LoopDone(p: Pipeline, s: State, loop: nat)
    requires Inv(p, s) && Finished(s) && s.pcs != [] && loop < END
    ensures forall i :: 0 <= i < |s.status[loop]| ==> s.status[loop][i] == Done
  {
    assert s.pcs[0] == Fetch(END) && HandedOut(s.status[loop]);
    forall i | 0 <= i < |s.status[loop]|
      ensures s.status[loop][i] == Done
    {
      assert OwnerWorks(s.pcs, loop, i, s.status[loop][i]);
    }
  }

  /** A source through with all its waves has read them and is unblocked. */
  lemma WavesRead(p: Pipeline, s: State, i: nat)
    requires Connected(p) && RequestsCover(p) && Inv(p, s) && i < |p.sources|
    requires s.status[UNBLOCK][i] == Done && forall loop: nat :: Runs(p, loop) ==> s.status[loop][i] == Done
    ensures Own(p, i) <= s.sources[i].got && s.sources[i].signals > 0
  {
    assert SourceOk(p, i, s.sources[i]);
    assert Through(p, s.pcs, s.sources[i], UNBLOCK, i, s.status[UNBLOCK][i]);
    forall d | d in Own(p, i)
      ensures d in s.sources[i].got
    {
      var loop := LoopOfWave(d);
      assert Runs(p, loop);
      assert Through(p, s.pcs, s.sources[i], loop, i, s.status[loop][i]);
      assert {d} <= p.sources[i].request({d});
      assert d in Reads(p, i, loop);
    }
  }

  lemma SourceComplete(p: Pipeline, s: State, i: nat)
    requires Connected(p) && RequestsCover(p) && Inv(p, s) && Finished(s) && s.pcs != [] && i < |p.sources|
    ensures p.scheduled * p.sources[i].dataLimit <= s.sources[i].got
  {
    LoopDone(p, s, UNBLOCK);
    LoopDone(p, s, FINISH);
    forall loop: nat | Runs(p, loop)
      ensures s.status[loop][i] == Done
    {
      LoopDone(p, s, loop);
    }
    WavesRead(p, s, i);
    assert Through(p, s.pcs, s.sources[i], FINISH, i, s.status[FINISH][i]);
    var rest := p.scheduled - p.scheduledWaves;
    assert rest <= p.sources[i].request(rest);
  }

  /** When all threads are through, every sink was told of exactly the waves it asked
    for, and every source has read everything scheduled that it provides. */
  lemma Completeness(p: Pipeline, team: nat, states: seq<State>, moves: seq<Move>)
    requires Connected(p) && RequestsCover(p) && team > 0 && Run(p, team, states, moves)
    requires Finished(states[|moves|])
    ensures var s := states[|moves|];
            && |s.sinks| == |p.sinks| && |s.sources| == |p.sources|
            && (forall k :: 0 <= k < |p.sinks| ==> s.sinks[k].delivered == p.sinks[k].waveLimit)
            && (forall i :: 0 <= i < |p.sources| ==> p.scheduled * p.sources[i].dataLimit <= s.sources[i].got)
  {
    var s := states[|moves|];
    RunKeepsInv(p, team, states, moves, |moves|);
    forall k | 0 <= k < |p.sinks|
      ensures s.sinks[k].delivered == p.sinks[k].waveLimit
    {
      SinkComplete(p, s, k);
    }
    forall i | 0 <= i < |p.sources|
      ensures p.scheduled * p.sources[i].dataLimit <= s.sources[i].got
    {
      SourceComplete(p, s, i);
    }
  }

  // ----- Progress

  ghost predicate CanMove(p: Pipeline, s: State, t: nat)
    requires Shape(p, s)
  {
    exists n: nat :: Enabled(p, s, t, n)
  }

  /** Only threads that need a lock or wait for a source can be stuck. */
  lemma MovesUnlessAsking(p: Pipeline, s: State, t: nat)
    requires Shape(p, s) && t < |s.pcs| && s.pcs[t] != Fetch(END) && !s.pcs[t].Ask?
    ensures CanMove(p, s, t)
  {
    if s.pcs[t].Fetch? && Todo in s.status[s.pcs[t].loop] {
      var n :| 0 <= n < |s.status[s.pcs[t].loop]| && s.status[s.pcs[t].loop][n] == Todo;
      assert Enabled(p, s, t, n);
    } else {
      assert Enabled(p, s, t, 0);
    }
  }

  /** A thread that wants a source that is not blocked can move, or the one that
    holds the source can. */
  lemma LockMoves(p: Pipeline, s: State, t: nat) returns (u: nat)
    requires Inv(p, s) && t < |s.pcs| && s.pcs[t].Ask?
    requires s.pcs[t].loop == FINISH ==> s.sources[s.pcs[t].i].signals > 0
    ensures u < |s.pcs| && CanMove(p, s, u)
  {
    var i := s.pcs[t].i;
    assert HolderReads(p, s.pcs, s.sources[i], i);
    match s.sources[i].holder {
      case None =>
        assert Enabled(p, s, t, 0);
        u := t;
      case Some(h) =>
        u := h;
        MovesUnlessAsking(p, s, u);
    }
  }

  /** No deadlock: until all threads are through, some thread can move; in particular
    every wait for a source's waves is released. */
  lemma NoDeadlock(p: Pipeline, s: State) returns (u: nat)
    requires Connected(p) && RequestsCover(p) && Inv(p, s) && !Finished(s)
    ensures u < |s.pcs| && CanMove(p, s, u)
  {
    var t: nat :| t < |s.pcs| && s.pcs[t] != Fetch(END);
    if !s.pcs[t].Ask? {
      u := t;
      MovesUnlessAsking(p, s, t);
    } else if s.pcs[t].loop != FINISH || s.sources[s.pcs[t].i].signals > 0 {
      u := LockMoves(p, s, t);
    } else {
      u := WaitMoves(p, s, t);
    }
  }

  /** A wave or unblocking that source i is not through with. */
  ghost predicate Outstanding(p: Pipeline, s: State, i: nat, loop: nat)
    requires Shape(p, s) && i < |p.sources|
  {
    (loop == UNBLOCK || Runs(p, loop)) && s.status[loop][i] != Done
  }

  lemma WaitMoves(p: Pipeline, s: State, t: nat) returns (u: nat)
    requires Connected(p) && RequestsCover(p) && Inv(p, s) && t < |s.pcs| && s.pcs[t].Ask? && s.pcs[t].loop == FINISH
    requires s.sources[s.pcs[t].i].signals == 0
    ensures u < |s.pcs| && CanMove(p, s, u)
  {
    var i := s.pcs[t].i;
    assert exists loop: nat :: Outstanding(p, s, i, loop) by {
      if forall loop: nat :: !Outstanding(p, s, i, loop) {
        assert !Outstanding(p, s, i, UNBLOCK);
        forall loop: nat | Runs(p, loop)
          ensures s.status[loop][i] == Done
        {
          assert !Outstanding(p, s, i, loop);
        }
        WavesRead(p, s, i);
      }
    }
    var loop: nat :| Outstanding(p, s, i, loop);
    assert HandedOut(s.status[loop]);
    assert OwnerWorks(s.pcs, loop, i, s.status[loop][i]);
    u := s.status[loop][i].owner;
    if s.pcs[u].Ask? {
      u := LockMoves(p, s, u);
    } else {
      MovesUnlessAsking(p, s, u);
    }
  }

  // ----- Termination

  /** How many steps a thread can take without getting another iteration. */
  ghost function Rank(p: Pipeline, pc: Pc): nat
    requires PcOk(p, pc)
  {
    END - LoopOf(pc) +
    match pc
    case Fetch(_) => 0
    case First(_) => 1
    case Unblock(_) => 1
    case Ask(_, _) => |p.sinks| + 3
    case Locked(_, _, _) => |p.sinks| + 2
    case Count(_, _) => |p.sinks| + 1
    case Tell(_, k) => |p.sinks| - k
  }

  ghost function Ranks(p: Pipeline, pcs: seq<Pc>): nat
    requires forall t :: 0 <= t < |pcs| ==> PcOk(p, pcs[t])
  {
    if pcs == [] then 0 else Rank(p, pcs[0]) + Ranks(p, pcs[1..])
  }

  lemma {:induction false} RanksUpdate(p: Pipeline, pcs: seq<Pc>, t: nat, pc: Pc)
    requires (forall u :: 0 <= u < |pcs| ==> PcOk(p, pcs[u])) && t < |pcs| && PcOk(p, pc)
    ensures Ranks(p, pcs[t := pc]) == Ranks(p, pcs) + Rank(p, pc) - Rank(p, pcs[t])
  {
    if t == 0 {
      assert pcs[t := pc][1..] == pcs[1..];
    } else {
      assert pcs[t := pc][1..] == pcs[1..][t - 1 := pc];
      RanksUpdate(p, pcs[1..], t - 1, pc);
    }
  }

  ghost function Todos(status: seq<Status>): nat {
    if status == [] then 0 else Todos(status[1..]) + if status[0] == Todo then 1 else 0
  }

  lemma {:induction false} TodosUpdate(status: seq<Status>, i: nat, st: Status)
    requires i < |status| && st != Todo
    ensures Todos(status[i := st]) == Todos(status) - if status[i] == Todo then 1 else 0
  {
    if i == 0 {
      assert status[i := st][1..] == status[1..];
    } else {
      assert status[i := st][1..] == status[1..][i - 1 := st];
      TodosUpdate(status[1..], i - 1, st);
    }
  }

  ghost function AllTodos(status: seq<seq<Status>>): nat {
    if status == [] then 0 else Todos(status[0]) + AllTodos(status[1..])
  }

  lemma {:induction false} AllTodosUpdate(status: seq<seq<Status>>, loop: nat, row: seq<Status>)
    requires loop < |status|
    ensures AllTodos(status[loop := row]) == AllTodos(status) + Todos(row) - Todos(status[loop])
  {
    if loop == 0 {
      assert status[loop := row][1..] == status[1..];
    } else {
      assert status[loop := row][1..] == status[1..][loop - 1 := row];
      AllTodosUpdate(status[1..], loop - 1, row);
    }
  }

  /** An upper bound on the steps left. */
  ghost function StepsLeft(p: Pipeline, s: State): nat
    requires Shape(p, s)
  {
    AllTodos(s.status) * (|p.sinks| + 4) + Ranks(p, s.pcs)
  }

  lemma MarkTodos(s: State, loop: nat, i: nat, st: Status)
    requires loop < |s.status| && i < |s.status[loop]| && st != Todo
    ensures AllTodos(Mark(s, loop, i, st)) == AllTodos(s.status) - if s.status[loop][i] == Todo then 1 else 0
  {
    TodosUpdate(s.status[loop], i, st);
    AllTodosUpdate(s.status, loop, s.status[loop][i := st]);
  }

  /** The step hands out an iteration. */
  ghost predicate Takes(s: State, t: nat)
    requires t < |s.pcs|
  {
    s.pcs[t].Fetch? && s.pcs[t].loop < |s.status| && Todo in s.status[s.pcs[t].loop]
  }

  lemma StepTodos(p: Pipeline, s: State, t: nat, n: nat)
    requires Shape(p, s) && Enabled(p, s, t, n) && Holds(s.status, t, s.pcs[t])
    ensures AllTodos(Next(p, s, t, n).status) == AllTodos(s.status) - if Takes(s, t) then 1 else 0
  {
    match s.pcs[t]
    case Fetch(loop) => if Todo in s.status[loop] { MarkTodos(s, loop, n, Taken(t)); }
    case First(k) => MarkTodos(s, 0, k, Done);
    case Unblock(i) => MarkTodos(s, UNBLOCK, i, Done);
    case Locked(loop, i, _) => if loop == FINISH { MarkTodos(s, loop, i, Done); }
    case Count(loop, i) => MarkTodos(s, loop, i, Done);
    case _ =>
  }

  lemma StepRank(p: Pipeline, s: State, t: nat, n: nat)
    requires Shape(p, s) && Enabled(p, s, t, n)
    ensures var s' := Next(p, s, t, n);
            && Shape(p, s') && |s'.pcs| == |s.pcs| && s'.pcs == s.pcs[t := s'.pcs[t]]
            && Rank(p, s'.pcs[t]) < Rank(p, s.pcs[t]) + if Takes(s, t) then |p.sinks| + 4 else 0
  {
    ShapeKept(p, s, t, n);
  }

  lemma Spend(a: int, w: int)
    ensures (a - 1) * w == a * w - w
  {
  }

  lemma StepsDecrease(p: Pipeline, s: State, m: Move, s': State)
    requires Inv(p, s) && Step(p, s, m, s')
    ensures Shape(p, s') && StepsLeft(p, s') < StepsLeft(p, s)
  {
    assert Holds(s.status, m.t, s.pcs[m.t]);
    StepTodos(p, s, m.t, m.n);
    StepRank(p, s, m.t, m.n);
    RanksUpdate(p, s.pcs, m.t, s'.pcs[m.t]);
    Spend(AllTodos(s.status), |p.sinks| + 4);
  }

  lemma RunShape(p: Pipeline, team: nat, states: seq<State>, moves: seq<Move>, a: nat)
    requires Connected(p) && Run(p, team, states, moves) && a < |states|
    ensures Shape(p, states[a])
  {
    RunKeepsInv(p, team, states, moves, a);
  }

  lemma RunDecreases(p: Pipeline, team: nat, states: seq<State>, moves: seq<Move>, a: nat)
    requires Connected(p) && Run(p, team, states, moves) && a < |moves|
    ensures Shape(p, states[a]) && Shape(p, states[a + 1])
    ensures StepsLeft(p, states[a + 1]) < StepsLeft(p, states[a])
  {
    RunKeepsInv(p, team, states, moves, a);
    assert StepAt(p, states, moves, a);
    StepsDecrease(p, states[a], moves[a], states[a + 1]);
  }

  /** No run is longer than the bound its first state gives. */
  lemma {:induction false} RunsEnd(p: Pipeline, team: nat, states: seq<State>, moves: seq<Move>, a: nat)
    requires Connected(p) && Run(p, team, states, moves) && a < |states|
    ensures Shape(p, states[0]) && Shape(p, states[a])
    ensures a + StepsLeft(p, states[a]) <= StepsLeft(p, states[0])
  {
    if a == 0 {
      RunShape(p, team, states, moves, 0);
    } else {
      RunsEnd(p, team, states, moves, a - 1);
      RunDecreases(p, team, states, moves, a - 1);
    }
  }

  /** So every run that goes on as long as it can is complete. */
  lemma RunsComplete(p: Pipeline, team: nat, states: seq<State>, moves: seq<Move>)
    requires Connected(p) && RequestsCover(p) && team > 0 && Run(p, team, states, moves)
    ensures var s := states[|moves|];
            && Shape(p, s)
            && ((forall t: nat, n: nat :: !Enabled(p, s, t, n)) <==> Finished(s))
            && (Finished(s) ==>
                  && (forall k :: 0 <= k < |p.sinks| ==> s.sinks[k].delivered == p.sinks[k].waveLimit)
                  && (forall i :: 0 <= i < |p.sources| ==> p.scheduled * p.sources[i].dataLimit <= s.sources[i].got))
  {
    var s := states[|moves|];
    RunKeepsInv(p, team, states, moves, |moves|);
    if Finished(s) {
      Completeness(p, team, states, moves);
    } else {
      var t := NoDeadlock(p, s);
    }
  }
}
