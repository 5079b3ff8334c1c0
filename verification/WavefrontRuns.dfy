/** `ProfilePipeline::run` as a machine: each step is one atomic piece of one worker
  thread's code, and any thread may take the next step. */
module WavefrontRuns {
  import opened Common
  import opened Wavefronts

  /** The worksharing loops of a thread, in order: the unscheduled wavefront (over
    sinks), unblocking sources without waves, four waves, the finishing wave. */
  const UNBLOCK: nat := 1
  const FINISH: nat := 6
  const END: nat := 7

  predicate IsWave(loop: nat) {
    2 <= loop < FINISH
  }

  function WaveOf(loop: nat): Class
    requires IsWave(loop)
  {
    if loop == 2 then Attributes else if loop == 3 then References else if loop == 4 then Threads else Contexts
  }

  /** Where a thread is. */
  datatype Pc =
    | Fetch(loop: nat)                      // about to get an iteration of the loop, or to move on
    | First(k: nat)                         // about to tell sink k of the unscheduled waves
    | Unblock(i: nat)                       // about to unblock source i if it has no waves
    | Ask(loop: nat, i: nat)                // about to lock source i
    | Locked(loop: nat, i: nat, req: DataClass) // reading from source i
    | Count(loop: nat, i: nat)              // about to count down for source i
    | Tell(loop: nat, k: nat)               // about to tell sink k that the wave has passed

  /** An iteration of a loop: not handed out yet, given to a thread, or completed. */
  datatype Status = Todo | Taken(owner: nat) | Done

  /** `log` are the sets delivered so far. */
  datatype SinkState = SinkState(state: DataClass, delivered: DataClass, log: seq<DataClass>)

  /** `read` is set before reading, `got` is what has been read; `asked` are the calls
    of `read`, `served` the waves that are through, `signals` how often `wavesComplete`
    was signalled. */
  datatype SourceState = SourceState(
    read: DataClass, got: DataClass, holder: Option<nat>, signals: nat, asked: seq<DataClass>, served: set<nat>)

  /** `tellers` are the threads that count a wave down to zero. */
  datatype State = State(
    pcs: seq<Pc>,
    status: seq<seq<Status>>,
    countdowns: seq<int>,
    tellers: seq<nat>,
    sinks: seq<SinkState>,
    sources: seq<SourceState>)

  predicate Runs(p: Pipeline, loop: nat) {
    IsWave(loop) && WaveOf(loop) in p.scheduledWaves
  }

  /** Waves nobody asked for are skipped by every thread. */
  function Iterations(p: Pipeline, loop: nat): nat {
    if loop == 0 then |p.sinks|
    else if loop == UNBLOCK || loop == FINISH || Runs(p, loop) then |p.sources|
    else 0
  }

  function Initial(p: Pipeline, team: nat): State {
    State(
      seq(team, _ => Fetch(0)),
      seq(END, (loop: nat) => seq(Iterations(p, loop), _ => Todo)),
      seq(END, _ => |p.sources|),
      seq(END, _ => 0),
      seq(|p.sinks|, _ => SinkState({}, {}, [])),
      seq(|p.sources|, _ => SourceState({}, {}, None, 0, [], {})))
  }

  /** The waves source i has and others wait for. */
  function Own(p: Pipeline, i: nat): DataClass
    requires i < |p.sources|
  {
    p.scheduledWaves * p.sources[i].dataLimit
  }

  /** What a wave makes source i read. */
  function Reads(p: Pipeline, i: nat, loop: nat): DataClass
    requires i < |p.sources| && (IsWave(loop) || loop == FINISH)
  {
    var want := if loop == FINISH then p.scheduled - p.scheduledWaves else {WaveOf(loop)};
    p.sources[i].request(want) * p.sources[i].dataLimit
  }

  // ----- The pieces

  /** The locked part of `notify`. */
  function Notify(p: Pipeline, sink: Sink, e: SinkState, newwaves: DataClass): SinkState {
    var state := e.state + newwaves;
    if state * sink.waveLimit <= e.delivered then e.(state := state)
    else if !(sink.priorDelay * p.scheduledWaves <= state) then e.(state := state)
    else
      var delivered := e.delivered + state * sink.waveLimit;
      SinkState(state, delivered, e.log + [delivered])
  }

  function Begin(loop: nat, i: nat): Pc {
    if loop == 0 then First(i) else if loop == UNBLOCK then Unblock(i) else Ask(loop, i)
  }

  /** Taking the lock of source i and marking what is going to be read. */
  function Locking(src: SourceState, t: nat, req: DataClass): SourceState {
    src.(read := src.read + req, holder := Some(t), asked := if req == {} then src.asked else src.asked + [req])
  }

  /** Having read, unblock the finishing wave if no waves are left, and unlock. */
  function Unlocking(src: SourceState, loop: nat, req: DataClass, own: DataClass): SourceState {
    src.(
      got := src.got + req,
      holder := None,
      signals := if loop != FINISH && req != {} && own <= src.read then src.signals + 1 else src.signals,
      served := if loop != FINISH then src.served + {loop} else src.served)
  }

  function NextSink(p: Pipeline, loop: nat, k: nat): Pc {
    if k < |p.sinks| then Tell(loop, k) else Fetch(loop)
  }

  // ----- Well-formed states

  predicate PcOk(p: Pipeline, pc: Pc) {
    match pc
    case Fetch(loop) => loop <= END
    case First(k) => k < |p.sinks|
    case Unblock(i) => i < |p.sources|
    case Ask(loop, i) => (Runs(p, loop) || loop == FINISH) && i < |p.sources|
    case Locked(loop, i, req) => (Runs(p, loop) || loop == FINISH) && i < |p.sources|
    case Count(loop, i) => Runs(p, loop) && i < |p.sources|
    case Tell(loop, k) => Runs(p, loop) && k < |p.sinks|
  }

  predicate Shape(p: Pipeline, s: State) {
    && |s.status| == |s.countdowns| == |s.tellers| == END
    && |s.sinks| == |p.sinks| && |s.sources| == |p.sources|
    && (forall loop :: 0 <= loop < END ==> |s.status[loop]| == Iterations(p, loop))
    && (forall t :: 0 <= t < |s.pcs| ==> PcOk(p, s.pcs[t]))
  }

  function LoopOf(pc: Pc): nat {
    match pc
    case First(_) => 0
    case Unblock(_) => UNBLOCK
    case _ => pc.loop
  }

  /** The iteration a thread works on; after the countdown it is complete. */
  function Work(pc: Pc): Option<(nat, nat)> {
    match pc
    case Fetch(_) => None
    case First(k) => Some((0, k))
    case Unblock(i) => Some((UNBLOCK, i))
    case Ask(loop, i) => Some((loop, i))
    case Locked(loop, i, _) => Some((loop, i))
    case Count(loop, i) => Some((loop, i))
    case Tell(_, _) => None
  }

  /** Thread t can take a step; `n` is the iteration it gets, if it asks for one. */
  predicate Enabled(p: Pipeline, s: State, t: nat, n: nat)
    requires Shape(p, s)
  {
    && t < |s.pcs|
    && match s.pcs[t]
       case Fetch(loop) => loop < END && (Todo in s.status[loop] ==> n < |s.status[loop]| && s.status[loop][n] == Todo)
       case Ask(loop, i) => s.sources[i].holder == None && (loop == FINISH ==> s.sources[i].signals > 0)
       case _ => true
  }

  function Mark(s: State, loop: nat, i: nat, st: Status): seq<seq<Status>>
    requires loop < |s.status| && i < |s.status[loop]|
  {
    s.status[loop := s.status[loop][i := st]]
  }

  function Next(p: Pipeline, s: State, t: nat, n: nat): (s': State)
    requires Shape(p, s) && Enabled(p, s, t, n)
  {
    match s.pcs[t]
    case Fetch(loop) =>
      if Todo in s.status[loop]
      then s.(status := Mark(s, loop, n, Taken(t)), pcs := s.pcs[t := Begin(loop, n)])
      else s.(pcs := s.pcs[t := Fetch(loop + 1)])
    case First(k) =>
      s.(sinks := s.sinks[k := Notify(p, p.sinks[k], s.sinks[k], p.unscheduledWaves)],
         status := Mark(s, 0, k, Done), pcs := s.pcs[t := Fetch(0)])
    case Unblock(i) =>
      var src := s.sources[i];
      s.(sources := s.sources[i := if Own(p, i) == {} then src.(signals := src.signals + 1) else src],
         status := Mark(s, UNBLOCK, i, Done), pcs := s.pcs[t := Fetch(UNBLOCK)])
    case Ask(loop, i) =>
      var req := Reads(p, i, loop) - s.sources[i].read;
      s.(sources := s.sources[i := Locking(s.sources[i], t, req)], pcs := s.pcs[t := Locked(loop, i, req)])
    case Locked(loop, i, req) =>
      var sources := s.sources[i := Unlocking(s.sources[i], loop, req, Own(p, i))];
      if loop == FINISH
      then s.(sources := sources, status := Mark(s, loop, i, Done), pcs := s.pcs[t := Fetch(loop)])
      else s.(sources := sources, pcs := s.pcs[t := Count(loop, i)])
    case Count(loop, i) =>
      var left := s.countdowns[loop] - 1;
      var counted := s.(countdowns := s.countdowns[loop := left], status := Mark(s, loop, i, Done));
      if left == 0
      then counted.(tellers := s.tellers[loop := t], pcs := s.pcs[t := NextSink(p, loop, 0)])
      else counted.(pcs := s.pcs[t := Fetch(loop)])
    case Tell(loop, k) =>
      s.(sinks := s.sinks[k := Notify(p, p.sinks[k], s.sinks[k], {WaveOf(loop)})],
         pcs := s.pcs[t := NextSink(p, loop, k + 1)])
  }

  lemma ShapeKept(p: Pipeline, s: State, t: nat, n: nat)
    requires Shape(p, s) && Enabled(p, s, t, n)
    ensures Shape(p, Next(p, s, t, n))
  {
  }
}
