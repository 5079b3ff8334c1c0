/** What every step of every thread keeps. */
module WavefrontInvariants {
  import opened Common
  import opened Wavefronts
  import opened WavefrontRuns

  // ----- Threads and the iterations they work on

  ghost predicate Holds(status: seq<seq<Status>>, t: nat, pc: Pc) {
    Work(pc).Some? ==>
      var (loop, i) := Work(pc).value;
      loop < |status| && i < |status[loop]| && status[loop][i] == Taken(t)
  }

  ghost predicate OwnerWorks(pcs: seq<Pc>, loop: nat, i: nat, st: Status) {
    st.Taken? ==> st.owner < |pcs| && Work(pcs[st.owner]) == Some((loop, i))
  }

  /** All iterations of a loop have been handed out. */
  ghost predicate HandedOut(status: seq<Status>) {
    forall i :: 0 <= i < |status| ==> status[i] != Todo
  }

  ghost predicate Tasks(pcs: seq<Pc>, status: seq<seq<Status>>) {
    && (forall t :: 0 <= t < |pcs| ==> Holds(status, t, pcs[t]))
    && (forall loop, i :: 0 <= loop < |status| && 0 <= i < |status[loop]| ==> OwnerWorks(pcs, loop, i, status[loop][i]))
    && (forall t, loop :: 0 <= t < |pcs| && 0 <= loop < |status| && loop < LoopOf(pcs[t]) ==> HandedOut(status[loop]))
  }

  /** Going on with the same iteration. */
  lemma TasksStay(pcs: seq<Pc>, status: seq<seq<Status>>, t: nat, pc: Pc)
    requires Tasks(pcs, status) && t < |pcs| && Work(pc) == Work(pcs[t]) && LoopOf(pc) == LoopOf(pcs[t])
    ensures Tasks(pcs[t := pc], status)
  {
  }

  /** Moving on to the next loop. */
  lemma TasksMove(pcs: seq<Pc>, status: seq<seq<Status>>, t: nat)
    requires Tasks(pcs, status) && t < |pcs| && pcs[t].Fetch? && pcs[t].loop < |status| && Todo !in status[pcs[t].loop]
    ensures Tasks(pcs[t := Fetch(pcs[t].loop + 1)], status)
  {
  }

  lemma TasksTake(pcs: seq<Pc>, status: seq<seq<Status>>, t: nat, n: nat)
    requires Tasks(pcs, status) && t < |pcs| && pcs[t].Fetch? && pcs[t].loop < |status|
    requires n < |status[pcs[t].loop]| && status[pcs[t].loop][n] == Todo
    ensures var loop := pcs[t].loop;
            Tasks(pcs[t := Begin(loop, n)], status[loop := status[loop][n := Taken(t)]])
  {
  }

  /** Completing an iteration. */
  lemma TasksEnd(pcs: seq<Pc>, status: seq<seq<Status>>, t: nat, pc: Pc)
    requires Tasks(pcs, status) && t < |pcs| && Work(pcs[t]).Some?
    requires Work(pc) == None && LoopOf(pc) == LoopOf(pcs[t])
    ensures var (loop, i) := Work(pcs[t]).value;
            && loop < |status| && i < |status[loop]|
            && Tasks(pcs[t := pc], status[loop := status[loop][i := Done]])
  {
    var (loop, i) := Work(pcs[t]).value;
    assert Holds(status, t, pcs[t]);
  }

  lemma TasksKept(p: Pipeline, s: State, t: nat, n: nat)
    requires Shape(p, s) && Enabled(p, s, t, n) && Tasks(s.pcs, s.status)
    ensures var s' := Next(p, s, t, n); Tasks(s'.pcs, s'.status)
  {
    var s' := Next(p, s, t, n);
    match s.pcs[t]
    case Fetch(loop) =>
      if Todo in s.status[loop] { TasksTake(s.pcs, s.status, t, n); } else { TasksMove(s.pcs, s.status, t); }
    case First(k) => TasksEnd(s.pcs, s.status, t, s'.pcs[t]);
    case Unblock(i) => TasksEnd(s.pcs, s.status, t, s'.pcs[t]);
    case Ask(loop, i) => TasksStay(s.pcs, s.status, t, s'.pcs[t]);
    case Locked(loop, i, req) =>
      if loop == FINISH { TasksEnd(s.pcs, s.status, t, s'.pcs[t]); } else { TasksStay(s.pcs, s.status, t, s'.pcs[t]); }
    case Count(loop, i) => TasksEnd(s.pcs, s.status, t, s'.pcs[t]);
    case Tell(loop, k) => TasksStay(s.pcs, s.status, t, s'.pcs[t]);
  }

  // ----- Locks of the sources

  ghost predicate HasLock(sources: seq<SourceState>, t: nat, pc: Pc) {
    pc.Locked? ==> pc.i < |sources| && sources[pc.i].holder == Some(t)
  }

  /** Whoever holds the lock is reading what has been marked as read. */
  ghost predicate HolderReads(p: Pipeline, pcs: seq<Pc>, src: SourceState, i: nat)
    requires i < |p.sources|
  {
    match src.holder
    case None => src.got == src.read
    case Some(t) =>
      && t < |pcs| && pcs[t].Locked? && pcs[t].i == i && PcOk(p, pcs[t])
      && Reading(p, i, src, pcs[t].loop, pcs[t].req)
  }

  ghost predicate Reading(p: Pipeline, i: nat, src: SourceState, loop: nat, req: DataClass)
    requires i < |p.sources| && (IsWave(loop) || loop == FINISH)
  {
    && src.got + req == src.read && src.got !! req
    && req <= Reads(p, i, loop) <= src.read
    && (loop == FINISH ==> src.signals > 0)
  }

  ghost predicate Locks(p: Pipeline, pcs: seq<Pc>, sources: seq<SourceState>) {
    && |sources| == |p.sources|
    && (forall t :: 0 <= t < |pcs| ==> HasLock(sources, t, pcs[t]))
    && (forall i :: 0 <= i < |sources| ==> HolderReads(p, pcs, sources[i], i))
  }

  lemma LocksOthers(p: Pipeline, pcs: seq<Pc>, sources: seq<SourceState>, t: nat, pc: Pc)
    requires Locks(p, pcs, sources) && t < |pcs| && !pcs[t].Locked? && !pc.Locked?
    ensures Locks(p, pcs[t := pc], sources)
  {
  }

  lemma LocksAsk(p: Pipeline, pcs: seq<Pc>, sources: seq<SourceState>, t: nat)
    requires Locks(p, pcs, sources) && t < |pcs| && pcs[t].Ask? && PcOk(p, pcs[t])
    requires sources[pcs[t].i].holder == None && (pcs[t].loop == FINISH ==> sources[pcs[t].i].signals > 0)
    ensures var Ask(loop, i) := pcs[t];
            var req := Reads(p, i, loop) - sources[i].read;
            Locks(p, pcs[t := Locked(loop, i, req)], sources[i := Locking(sources[i], t, req)])
  {
  }

  lemma LocksRelease(p: Pipeline, pcs: seq<Pc>, sources: seq<SourceState>, t: nat, pc: Pc)
    requires Locks(p, pcs, sources) && t < |pcs| && pcs[t].Locked? && PcOk(p, pcs[t]) && !pc.Locked?
    ensures var Locked(loop, i, req) := pcs[t];
            Locks(p, pcs[t := pc], sources[i := Unlocking(sources[i], loop, req, Own(p, i))])
  {
  }

  lemma LocksKept(p: Pipeline, s: State, t: nat, n: nat)
    requires Shape(p, s) && Enabled(p, s, t, n) && Locks(p, s.pcs, s.sources)
    ensures var s' := Next(p, s, t, n); Locks(p, s'.pcs, s'.sources)
  {
    var s' := Next(p, s, t, n);
    match s.pcs[t]
    case Ask(loop, i) => LocksAsk(p, s.pcs, s.sources, t);
    case Locked(loop, i, req) => LocksRelease(p, s.pcs, s.sources, t, s'.pcs[t]);
    case Unblock(i) =>
      LocksOthers(p, s.pcs, s.sources, t, s'.pcs[t]);
      assert HolderReads(p, s'.pcs, s.sources[i], i);
    case _ => LocksOthers(p, s.pcs, s.sources, t, s'.pcs[t]);
  }

  // ----- One source

  ghost predicate Covers(p: Pipeline, i: nat, loops: set<nat>, d: Class)
    requires i < |p.sources|
  {
    exists loop :: loop in loops && Runs(p, loop) && d in Reads(p, i, loop)
  }

  ghost predicate InOne(asked: seq<DataClass>, d: Class) {
    exists a :: 0 <= a < |asked| && d in asked[a]
  }

  /** The calls of `read` never ask for the same class twice. */
  ghost predicate AskedOnce(asked: seq<DataClass>, read: DataClass) {
    && (forall a :: 0 <= a < |asked| ==> asked[a] != {} && asked[a] <= read)
    && (forall a, b :: 0 <= a < b < |asked| ==> asked[a] !! asked[b])
    && (forall d :: d in read ==> InOne(asked, d))
  }

  lemma AskMore(asked: seq<DataClass>, read: DataClass, req: DataClass)
    requires AskedOnce(asked, read) && req != {} && req !! read
    ensures AskedOnce(asked + [req], read + req)
  {
    var more := asked + [req];
    forall d | d in read + req
      ensures InOne(more, d)
    {
      if d in req {
        assert d in more[|asked|];
      } else {
        var a :| 0 <= a < |asked| && d in asked[a];
        assert d in more[a];
      }
    }
  }

  ghost predicate SourceOk(p: Pipeline, i: nat, src: SourceState)
    requires i < |p.sources|
  {
    && src.read <= p.sources[i].dataLimit
    && (forall loop :: loop in src.served ==> Runs(p, loop) && Reads(p, i, loop) <= src.got)
    && (src.signals == 0 ==> forall d :: d in src.got ==> Covers(p, i, src.served, d))
    && (src.signals > 0 ==> forall d :: d in Own(p, i) ==> Covers(p, i, src.served, d))
    && (Own(p, i) != {} && Own(p, i) <= src.got ==> src.signals > 0)
  }

  lemma AskKeeps(p: Pipeline, i: nat, src: SourceState, t: nat, loop: nat)
    requires i < |p.sources| && (IsWave(loop) || loop == FINISH)
    requires SourceOk(p, i, src) && AskedOnce(src.asked, src.read)
    ensures var src' := Locking(src, t, Reads(p, i, loop) - src.read);
            SourceOk(p, i, src') && AskedOnce(src'.asked, src'.read)
  {
    var req := Reads(p, i, loop) - src.read;
    if req == {} {
      assert src.read + req == src.read;
    } else {
      AskMore(src.asked, src.read, req);
    }
  }

  lemma UnlockKeeps(p: Pipeline, i: nat, src: SourceState, loop: nat, req: DataClass)
    requires i < |p.sources| && (Runs(p, loop) || loop == FINISH) && SourceOk(p, i, src)
    requires Reading(p, i, src, loop, req)
    ensures SourceOk(p, i, Unlocking(src, loop, req, Own(p, i)))
  {
  }

  ghost predicate SourcesOk(p: Pipeline, sources: seq<SourceState>) {
    && |sources| == |p.sources|
    && forall i :: 0 <= i < |sources| ==> SourceOk(p, i, sources[i]) && AskedOnce(sources[i].asked, sources[i].read)
  }

  lemma UnblockKeeps(p: Pipeline, i: nat, src: SourceState)
    requires i < |p.sources| && SourceOk(p, i, src) && Own(p, i) == {}
    ensures SourceOk(p, i, src.(signals := src.signals + 1))
  {
  }

  lemma SourcesKept(p: Pipeline, s: State, t: nat, n: nat)
    requires Shape(p, s) && Enabled(p, s, t, n) && Locks(p, s.pcs, s.sources) && SourcesOk(p, s.sources)
    ensures SourcesOk(p, Next(p, s, t, n).sources)
  {
    match s.pcs[t]
    case Ask(loop, i) => AskKeeps(p, i, s.sources[i], t, loop);
    case Locked(loop, i, req) =>
      assert HasLock(s.sources, t, s.pcs[t]);
      assert HolderReads(p, s.pcs, s.sources[i], i);
      UnlockKeeps(p, i, s.sources[i], loop, req);
    case Unblock(i) => if Own(p, i) == {} { UnblockKeeps(p, i, s.sources[i]); }
    case _ =>
  }

  // ----- How far each source is

  ghost predicate Through(p: Pipeline, pcs: seq<Pc>, src: SourceState, loop: nat, i: nat, st: Status)
    requires i < |p.sources|
  {
    && (IsWave(loop) ==>
          (loop in src.served <==> st == Done || (st.Taken? && st.owner < |pcs| && pcs[st.owner].Count?)))
    && (loop == UNBLOCK && st == Done && Own(p, i) == {} ==> src.signals > 0)
    && (loop == FINISH && st == Done ==> Reads(p, i, FINISH) <= src.got)
  }

  ghost predicate Progress(p: Pipeline, s: State)
    requires Shape(p, s)
  {
    && (forall loop, i :: 1 <= loop < END && 0 <= i < |s.status[loop]| ==>
          Through(p, s.pcs, s.sources[i], loop, i, s.status[loop][i]))
  }

  /** Moving a thread does not matter for iterations it does not work on. */
  lemma ThroughOthers(p: Pipeline, s: State, t: nat, pc: Pc, loop: nat, i: nat)
    requires Shape(p, s) && Tasks(s.pcs, s.status) && t < |s.pcs|
    requires 1 <= loop < END && i < |s.status[loop]| && Work(s.pcs[t]) != Some((loop, i))
    requires Through(p, s.pcs, s.sources[i], loop, i, s.status[loop][i])
    ensures Through(p, s.pcs[t := pc], s.sources[i], loop, i, s.status[loop][i])
  {
  }

  lemma ProgressKept(p: Pipeline, s: State, t: nat, n: nat)
    requires Shape(p, s) && Enabled(p, s, t, n) && Tasks(s.pcs, s.status)
    requires Locks(p, s.pcs, s.sources) && Progress(p, s)
    ensures Shape(p, Next(p, s, t, n)) && Progress(p, Next(p, s, t, n))
  {
    ShapeKept(p, s, t, n);
    var s' := Next(p, s, t, n);
    assert Holds(s.status, t, s.pcs[t]);
    forall loop, i | 1 <= loop < END && 0 <= i < |s'.status[loop]|
      ensures Through(p, s'.pcs, s'.sources[i], loop, i, s'.status[loop][i])
    {
      assert Through(p, s.pcs, s.sources[i], loop, i, s.status[loop][i]);
      if Work(s.pcs[t]) == Some((loop, i)) {
        ThroughOwn(p, s, t, n, loop, i);
      } else {
        ThroughElse(p, s, t, n, loop, i);
      }
    }
  }

  /** Any other iteration. */
  lemma ThroughElse(p: Pipeline, s: State, t: nat, n: nat, loop: nat, i: nat)
    requires Shape(p, s) && Enabled(p, s, t, n) && Tasks(s.pcs, s.status)
    requires 1 <= loop < END && i < |s.status[loop]| && Work(s.pcs[t]) != Some((loop, i))
    requires Through(p, s.pcs, s.sources[i], loop, i, s.status[loop][i])
    ensures var s' := Next(p, s, t, n);
            Shape(p, s') && Through(p, s'.pcs, s'.sources[i], loop, i, s'.status[loop][i])
  {
    ShapeKept(p, s, t, n);
    ThroughOthers(p, s, t, Next(p, s, t, n).pcs[t], loop, i);
  }

  /** The iteration the thread works on. */
  lemma ThroughOwn(p: Pipeline, s: State, t: nat, n: nat, loop: nat, i: nat)
    requires Shape(p, s) && Enabled(p, s, t, n) && Tasks(s.pcs, s.status) && Locks(p, s.pcs, s.sources)
    requires 1 <= loop < END && i < |s.status[loop]| && Work(s.pcs[t]) == Some((loop, i))
    requires Through(p, s.pcs, s.sources[i], loop, i, s.status[loop][i])
    ensures var s' := Next(p, s, t, n);
            Shape(p, s') && Through(p, s'.pcs, s'.sources[i], loop, i, s'.status[loop][i])
  {
    ShapeKept(p, s, t, n);
    assert Holds(s.status, t, s.pcs[t]);
    if s.pcs[t].Locked? {
      assert HasLock(s.sources, t, s.pcs[t]);
      assert HolderReads(p, s.pcs, s.sources[i], i);
    }
  }

  // ----- Countdowns

  ghost function Pending(status: seq<Status>): nat {
    if status == [] then 0 else Pending(status[1..]) + if status[0] == Done then 0 else 1
  }

  lemma {:induction false} PendingUpdate(status: seq<Status>, i: nat, st: Status)
    requires i < |status|
    ensures Pending(status[i := st]) ==
            Pending(status) + (if st == Done then 0 else 1) - (if status[i] == Done then 0 else 1)
  {
    if i == 0 {
      assert status[i := st][1..] == status[1..];
    } else {
      assert status[i := st][1..] == status[1..][i - 1 := st];
      PendingUpdate(status[1..], i - 1, st);
    }
  }

  lemma {:induction false} PendingAll(status: seq<Status>)
    ensures Pending(status) == 0 <==> forall i :: 0 <= i < |status| ==> status[i] == Done
    ensures (forall i :: 0 <= i < |status| ==> status[i] == Todo) ==> Pending(status) == |status|
  {
    if status != [] {
      PendingAll(status[1..]);
      assert forall i :: 0 < i < |status| ==> status[i] == status[1..][i - 1];
    }
  }

  ghost predicate Counts(p: Pipeline, s: State)
    requires Shape(p, s)
  {
    forall loop: nat :: Runs(p, loop) ==> s.countdowns[loop] == Pending(s.status[loop])
  }

  lemma CountsKept(p: Pipeline, s: State, t: nat, n: nat)
    requires Shape(p, s) && Enabled(p, s, t, n) && Tasks(s.pcs, s.status) && Counts(p, s)
    ensures Shape(p, Next(p, s, t, n)) && Counts(p, Next(p, s, t, n))
  {
    ShapeKept(p, s, t, n);
    var s' := Next(p, s, t, n);
    assert Holds(s.status, t, s.pcs[t]);
    match s.pcs[t]
    case Fetch(loop) => if Todo in s.status[loop] { PendingUpdate(s.status[loop], n, Taken(t)); }
    case Count(loop, i) => PendingUpdate(s.status[loop], i, Done);
    case _ =>
  }

  // ----- One sink

  ghost predicate Delayed(p: Pipeline, sink: Sink, e: SinkState) {
    !(sink.priorDelay * p.scheduledWaves <= e.state)
  }

  ghost predicate Grows(log: seq<DataClass>) {
    forall a, b :: 0 <= a < b < |log| ==> log[a] < log[b]
  }

  ghost predicate SinkOk(p: Pipeline, sink: Sink, e: SinkState) {
    && e.state <= p.scheduledWaves + p.unscheduledWaves
    && e.delivered <= e.state * sink.waveLimit
    && (!Delayed(p, sink, e) ==> e.delivered == e.state * sink.waveLimit)
    && (e.delivered != {} ==> !Delayed(p, sink, e))
    && Grows(e.log)
    && e.delivered == if e.log == [] then {} else e.log[|e.log| - 1]
  }

  lemma NotifyKeeps(p: Pipeline, sink: Sink, e: SinkState, newwaves: DataClass)
    requires SinkOk(p, sink, e) && newwaves <= p.scheduledWaves + p.unscheduledWaves
    ensures var e' := Notify(p, sink, e, newwaves);
            SinkOk(p, sink, e') && e'.state == e.state + newwaves && e.delivered <= e'.delivered
  {
  }

  ghost predicate SinksOk(p: Pipeline, sinks: seq<SinkState>) {
    |sinks| == |p.sinks| && forall k :: 0 <= k < |sinks| ==> SinkOk(p, p.sinks[k], sinks[k])
  }

  lemma SinksKept(p: Pipeline, s: State, t: nat, n: nat)
    requires Shape(p, s) && Enabled(p, s, t, n) && SinksOk(p, s.sinks)
    ensures SinksOk(p, Next(p, s, t, n).sinks)
  {
    match s.pcs[t]
    case First(k) => NotifyKeeps(p, p.sinks[k], s.sinks[k], p.unscheduledWaves);
    case Tell(loop, k) => NotifyKeeps(p, p.sinks[k], s.sinks[k], {WaveOf(loop)});
    case _ =>
  }

  // ----- How far each wave is

  /** The first k sinks know that the wave has passed. */
  ghost predicate Known(sinks: seq<SinkState>, loop: nat, k: nat) {
    IsWave(loop) && k <= |sinks| && forall j :: 0 <= j < k ==> WaveOf(loop) in sinks[j].state
  }

  ghost predicate Spreads(s: State, loop: nat)
    requires IsWave(loop) && loop < |s.countdowns| && loop < |s.tellers|
  {
    && (forall k :: 0 <= k < |s.sinks| && WaveOf(loop) in s.sinks[k].state ==> s.countdowns[loop] == 0 && Known(s.sinks, loop, k))
    && (s.countdowns[loop] == 0 ==>
          && s.tellers[loop] < |s.pcs|
          && (Known(s.sinks, loop, |s.sinks|) || (var pc := s.pcs[s.tellers[loop]]; pc.Tell? && pc.loop == loop)))
  }

  ghost predicate Telling(s: State, pc: Pc) {
    pc.Tell? ==> pc.loop < |s.countdowns| && s.countdowns[pc.loop] == 0 && Known(s.sinks, pc.loop, pc.k)
  }

  ghost predicate Passing(p: Pipeline, s: State)
    requires Shape(p, s)
  {
    && (forall loop: nat :: Runs(p, loop) ==> Spreads(s, loop))
    && (forall t :: 0 <= t < |s.pcs| ==> Telling(s, s.pcs[t]))
    && (forall k :: 0 <= k < |s.sinks| && s.status[0][k] == Done ==> p.unscheduledWaves <= s.sinks[k].state)
  }

  lemma NotifyTold(p: Pipeline, sink: Sink, e: SinkState, newwaves: DataClass)
    ensures Notify(p, sink, e, newwaves).state == e.state + newwaves
  {
  }

  lemma KnownGrows(sinks: seq<SinkState>, k: nat, e: SinkState, loop: nat, n: nat)
    requires k < |sinks| && sinks[k].state <= e.state && Known(sinks, loop, n)
    ensures Known(sinks[k := e], loop, n)
  {
  }

  lemma PassingFirst(p: Pipeline, s: State, t: nat, n: nat)
    requires Connected(p) && Shape(p, s) && Enabled(p, s, t, n) && Passing(p, s) && s.pcs[t].First?
    ensures Shape(p, Next(p, s, t, n)) && Passing(p, Next(p, s, t, n))
  {
    ShapeKept(p, s, t, n);
    var s', k := Next(p, s, t, n), s.pcs[t].k;
    NotifyTold(p, p.sinks[k], s.sinks[k], p.unscheduledWaves);
    forall loop: nat, m: nat | Known(s.sinks, loop, m)
      ensures Known(s'.sinks, loop, m)
    {
      KnownGrows(s.sinks, k, s'.sinks[k], loop, m);
    }
    forall loop: nat | Runs(p, loop)
      ensures Spreads(s', loop)
    {
      assert Spreads(s, loop);
    }
    forall u | 0 <= u < |s'.pcs|
      ensures Telling(s', s'.pcs[u])
    {
      assert Telling(s, s.pcs[u]);
    }
  }

  lemma WavesDiffer(a: nat, b: nat)
    requires IsWave(a) && IsWave(b) && a != b
    ensures WaveOf(a) != WaveOf(b)
  {
  }

  lemma PassingTell(p: Pipeline, s: State, t: nat, n: nat)
    requires Connected(p) && Shape(p, s) && Enabled(p, s, t, n) && Passing(p, s) && s.pcs[t].Tell?
    ensures Shape(p, Next(p, s, t, n)) && Passing(p, Next(p, s, t, n))
  {
    ShapeKept(p, s, t, n);
    var s', now, k := Next(p, s, t, n), s.pcs[t].loop, s.pcs[t].k;
    NotifyTold(p, p.sinks[k], s.sinks[k], {WaveOf(now)});
    assert Telling(s, s.pcs[t]);
    forall loop: nat, m: nat | Known(s.sinks, loop, m)
      ensures Known(s'.sinks, loop, m)
    {
      KnownGrows(s.sinks, k, s'.sinks[k], loop, m);
    }
    assert Known(s'.sinks, now, k + 1);
    forall loop: nat | Runs(p, loop)
      ensures Spreads(s', loop)
    {
      assert Spreads(s, loop);
      if loop != now { WavesDiffer(loop, now); }
    }
    forall u | 0 <= u < |s'.pcs|
      ensures Telling(s', s'.pcs[u])
    {
      assert Telling(s, s.pcs[u]);
    }
  }

  lemma PassingCount(p: Pipeline, s: State, t: nat, n: nat)
    requires Connected(p) && Shape(p, s) && Enabled(p, s, t, n) && Tasks(s.pcs, s.status)
    requires Counts(p, s) && Passing(p, s) && s.pcs[t].Count?
    ensures Shape(p, Next(p, s, t, n)) && Passing(p, Next(p, s, t, n))
  {
    ShapeKept(p, s, t, n);
    var s', now := Next(p, s, t, n), s.pcs[t].loop;
    assert Holds(s.status, t, s.pcs[t]);
    PendingAll(s.status[now]);
    assert s.countdowns[now] > 0;
    forall loop: nat | Runs(p, loop)
      ensures Spreads(s', loop)
    {
      assert Spreads(s, loop);
    }
    forall u | 0 <= u < |s'.pcs|
      ensures Telling(s', s'.pcs[u])
    {
      assert Telling(s, s.pcs[u]);
    }
  }

  /** Steps that do not touch sinks and countdowns. */
  lemma PassingElsewhere(p: Pipeline, s: State, t: nat, s': State)
    requires Shape(p, s) && Shape(p, s') && Passing(p, s) && t < |s.pcs| == |s'.pcs| && !s.pcs[t].Tell? && !s'.pcs[t].Tell?
    requires s'.sinks == s.sinks && s'.countdowns == s.countdowns && s'.tellers == s.tellers
    requires s'.pcs == s.pcs[t := s'.pcs[t]]
    requires forall k :: 0 <= k < |s.sinks| && s'.status[0][k] == Done ==> s.status[0][k] == Done
    ensures Passing(p, s')
  {
    forall loop: nat | Runs(p, loop)
      ensures Spreads(s', loop)
    {
      assert Spreads(s, loop);
    }
    forall u | 0 <= u < |s'.pcs|
      ensures Telling(s', s'.pcs[u])
    {
      assert Telling(s, s.pcs[u]);
    }
  }

  lemma PassingKept(p: Pipeline, s: State, t: nat, n: nat)
    requires Connected(p) && Shape(p, s) && Enabled(p, s, t, n) && Tasks(s.pcs, s.status)
    requires Counts(p, s) && Passing(p, s)
    ensures Shape(p, Next(p, s, t, n)) && Passing(p, Next(p, s, t, n))
  {
    match s.pcs[t]
    case First(_) => PassingFirst(p, s, t, n);
    case Tell(_, _) => PassingTell(p, s, t, n);
    case Count(_, _) => PassingCount(p, s, t, n);
    case _ =>
      ShapeKept(p, s, t, n);
      PassingElsewhere(p, s, t, Next(p, s, t, n));
  }

  // ----- Together

  ghost predicate Inv(p: Pipeline, s: State) {
    && Shape(p, s)
    && Tasks(s.pcs, s.status)
    && Locks(p, s.pcs, s.sources)
    && SourcesOk(p, s.sources)
    && Progress(p, s)
    && Counts(p, s)
    && SinksOk(p, s.sinks)
    && Passing(p, s)
  }

  lemma InvInitial(p: Pipeline, team: nat)
    requires Connected(p)
    ensures Inv(p, Initial(p, team))
  {
    var s := Initial(p, team);
    forall loop: nat | Runs(p, loop)
      ensures s.countdowns[loop] == Pending(s.status[loop]) && Spreads(s, loop)
    {
      PendingAll(s.status[loop]);
    }
  }

  lemma InvKept(p: Pipeline, s: State, t: nat, n: nat)
    requires Connected(p) && Inv(p, s) && Enabled(p, s, t, n)
    ensures Inv(p, Next(p, s, t, n))
  {
    TasksKept(p, s, t, n);
    LocksKept(p, s, t, n);
    SourcesKept(p, s, t, n);
    ProgressKept(p, s, t, n);
    CountsKept(p, s, t, n);
    SinksKept(p, s, t, n);
    PassingKept(p, s, t, n);
  }
}
