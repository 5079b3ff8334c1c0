/** Numbers for threads of other ranks: each rank has at most one request under way,
  sent in two or three messages to a server on rank 0 that serves all ranks. Messages
  from one rank to another arrive in order. */
module NumberingProtocol {
  import opened ThreadIds
  import opened Numbering

  datatype Msg = Word(w: U16) | Vector(v: seq<U16>) | Number(n: U64)

  /** `sent` messages of the current request are out. */
  datatype Client = Idle | Asking(key: Key, x: U64, sent: nat)

  /** What the server waits for. A message of another type than expected confuses it. */
  datatype Server = Ready | NeedVector(src: nat) | NeedNumber(src: nat, key: Key) | Confused

  datatype Answer = Answer(key: Key, x: nat, v: nat)

  datatype State = State(
    clients: seq<Client>,
    toServer: seq<seq<Msg>>,
    toClient: seq<seq<nat>>,
    server: Server,
    tables: Tables,
    answers: seq<Answer>)

  function Initial(ranks: nat): State {
    State(seq(ranks, _ => Idle), seq(ranks, _ => []), seq(ranks, _ => []), Ready, map[], [])
  }

  predicate KeyOk(key: Key) {
    key.Global? ==> key.kind < 0x4000
  }

  function Request(key: Key, x: U64): seq<Msg> {
    match key
    case Global(kind) => [Word(kind), Number(x)]
    case Local(words) => [Word(INVALID), Vector(words), Number(x)]
  }

  /** The atomic steps: rank 0 numbers an index itself; another rank begins a request,
    sends its next message or receives the answer; the server takes a message. */
  datatype Action =
    | Own(key: Key, x: U64)
    | Begin(r: nat, key: Key, x: U64)
    | Send(r: nat)
    | Receive(r: nat)
    | Serve(r: nat)

  predicate Shape(s: State) {
    |s.clients| == |s.toServer| == |s.toClient|
  }

  /** The server can take a message from rank r: any rank's if it is ready. */
  predicate Listens(server: Server, r: nat) {
    match server
    case Ready => true
    case NeedVector(src) => src == r
    case NeedNumber(src, _) => src == r
    case Confused => false
  }

  predicate Enabled(s: State, a: Action)
    requires Shape(s)
  {
    match a
    case Own(key, _) => KeyOk(key)
    case Begin(r, key, _) => KeyOk(key) && r < |s.clients| && s.clients[r] == Idle
    case Send(r) =>
      && r < |s.clients| && s.clients[r].Asking?
      && s.clients[r].sent < |Request(s.clients[r].key, s.clients[r].x)|
    case Receive(r) =>
      && r < |s.clients| && s.clients[r].Asking?
      && s.clients[r].sent == |Request(s.clients[r].key, s.clients[r].x)| && s.toClient[r] != []
    case Serve(r) => r < |s.clients| && Listens(s.server, r) && s.toServer[r] != []
  }

  function Serving(s: State, r: nat): State
    requires Shape(s) && Enabled(s, Serve(r))
  {
    var msg := s.toServer[r][0];
    var s := s.(toServer := s.toServer[r := s.toServer[r][1..]]);
    match s.server
    case Ready =>
      if !msg.Word? then s.(server := Confused)
      else if msg.w != INVALID then s.(server := NeedNumber(r, Global(msg.w)))
      else s.(server := NeedVector(r))
    case NeedVector(_) =>
      if !msg.Vector? then s.(server := Confused) else s.(server := NeedNumber(r, Local(msg.v)))
    case NeedNumber(_, key) =>
      if !msg.Number? then s.(server := Confused)
      else
        var t := Numbered(s.tables, key, msg.n);
        s.(server := Ready, tables := t, toClient := s.toClient[r := s.toClient[r] + [t[key][msg.n]]])
  }

  function Next(s: State, a: Action): State
    requires Shape(s) && Enabled(s, a)
  {
    match a
    case Own(key, x) =>
      var t := Numbered(s.tables, key, x);
      s.(tables := t, answers := s.answers + [Answer(key, x, t[key][x])])
    case Begin(r, key, x) =>
      s.(clients := s.clients[r := Asking(key, x, 1)],
         toServer := s.toServer[r := s.toServer[r] + [Request(key, x)[0]]])
    case Send(r) =>
      var c := s.clients[r];
      s.(clients := s.clients[r := c.(sent := c.sent + 1)],
         toServer := s.toServer[r := s.toServer[r] + [Request(c.key, c.x)[c.sent]]])
    case Receive(r) =>
      var c := s.clients[r];
      s.(clients := s.clients[r := Idle],
         toClient := s.toClient[r := s.toClient[r][1..]],
         answers := s.answers + [Answer(c.key, c.x, s.toClient[r][0])])
    case Serve(r) => Serving(s, r)
  }

  // ----- The invariant

  /** How many messages of rank r's request the server has taken. */
  function Taken(server: Server, back: seq<nat>, r: nat, size: nat): nat
    requires size >= 2
  {
    if server.NeedVector? && server.src == r then 1
    else if server.NeedNumber? && server.src == r then size - 1
    else if back != [] then size
    else 0
  }

  ghost predicate ServesFor(server: Server, r: nat) {
    !server.Ready? && Listens(server, r)
  }

  /** The messages under way are those sent and not taken, and the answer is right. */
  ghost predicate ClientOk(c: Client, out: seq<Msg>, back: seq<nat>, server: Server, t: Tables, r: nat) {
    match c
    case Idle => out == [] && back == [] && !ServesFor(server, r)
    case Asking(key, x, sent) =>
      var msgs := Request(key, x);
      var taken := Taken(server, back, r, |msgs|);
      && KeyOk(key) && 1 <= sent <= |msgs| && taken <= sent && out == msgs[taken..sent]
      && (server == NeedVector(r) ==> key.Local?)
      && (server.NeedNumber? && server.src == r ==> server.key == key)
      && (back != [] ==> |back| == 1 && !ServesFor(server, r) && Has(t, key, x, back[0]))
  }

  ghost predicate AnswersOk(t: Tables, answers: seq<Answer>) {
    forall k :: 0 <= k < |answers| ==> Has(t, answers[k].key, answers[k].x, answers[k].v)
  }

  ghost predicate Inv(s: State) {
    && Shape(s) && AllDense(s.tables) && AnswersOk(s.tables, s.answers)
    && s.server != Confused && (!s.server.Ready? ==> s.server.src < |s.clients|)
    && forall r :: 0 <= r < |s.clients| ==> ClientOk(s.clients[r], s.toServer[r], s.toClient[r], s.server, s.tables, r)
  }

  lemma ClientKept(c: Client, out: seq<Msg>, back: seq<nat>, server: Server, t: Tables, t': Tables, r: nat)
    requires ClientOk(c, out, back, server, t, r) && Extends(t, t')
    ensures ClientOk(c, out, back, server, t', r)
  {
  }

  /** Another rank is being served. */
  lemma OtherServed(c: Client, out: seq<Msg>, back: seq<nat>, server: Server, server': Server, t: Tables, r: nat)
    requires ClientOk(c, out, back, server, t, r) && !ServesFor(server, r) && !ServesFor(server', r) && server' != Confused
    ensures ClientOk(c, out, back, server', t, r)
  {
  }

  lemma AnswersKept(t: Tables, t': Tables, answers: seq<Answer>)
    requires AnswersOk(t, answers) && Extends(t, t')
    ensures AnswersOk(t', answers)
  {
  }

  lemma OwnKept(s: State, a: Action)
    requires Inv(s) && Enabled(s, a) && a.Own?
    ensures Inv(Next(s, a))
  {
    var s' := Next(s, a);
    NumberedExtends(s.tables, a.key, a.x);
    AnswersKept(s.tables, s'.tables, s.answers);
    forall r | 0 <= r < |s.clients|
      ensures ClientOk(s.clients[r], s.toServer[r], s.toClient[r], s.server, s'.tables, r)
    {
      ClientKept(s.clients[r], s.toServer[r], s.toClient[r], s.server, s.tables, s'.tables, r);
    }
  }

  lemma BeginKept(s: State, a: Action)
    requires Inv(s) && Enabled(s, a) && a.Begin?
    ensures Inv(Next(s, a))
  {
    assert ClientOk(s.clients[a.r], s.toServer[a.r], s.toClient[a.r], s.server, s.tables, a.r);
  }

  lemma SendKept(s: State, a: Action)
    requires Inv(s) && Enabled(s, a) && a.Send?
    ensures Inv(Next(s, a))
  {
    assert ClientOk(s.clients[a.r], s.toServer[a.r], s.toClient[a.r], s.server, s.tables, a.r);
  }

  lemma ReceiveKept(s: State, a: Action)
    requires Inv(s) && Enabled(s, a) && a.Receive?
    ensures Inv(Next(s, a))
  {
    assert ClientOk(s.clients[a.r], s.toServer[a.r], s.toClient[a.r], s.server, s.tables, a.r);
  }

  /** A request under way is served in the right order. */
  lemma ServeStep(s: State, r: nat)
    requires Inv(s) && Enabled(s, Serve(r))
    ensures var s' := Serving(s, r);
            && s'.server != Confused && AllDense(s'.tables) && Extends(s.tables, s'.tables)
            && ClientOk(s.clients[r], s'.toServer[r], s'.toClient[r], s'.server, s'.tables, r)
            && (s'.server.Ready? || ServesFor(s'.server, r))
  {
    assert ClientOk(s.clients[r], s.toServer[r], s.toClient[r], s.server, s.tables, r);
    var c := s.clients[r];
    var msgs := Request(c.key, c.x);
    var taken := Taken(s.server, s.toClient[r], r, |msgs|);
    assert s.toServer[r][0] == msgs[taken];
    assert s.toServer[r][1..] == msgs[taken + 1..c.sent];
    if s.server.NeedNumber? {
      NumberedExtends(s.tables, c.key, c.x);
    }
  }

  lemma ServeKept(s: State, r: nat)
    requires Inv(s) && Enabled(s, Serve(r))
    ensures Inv(Serving(s, r))
  {
    var s' := Serving(s, r);
    ServeStep(s, r);
    AnswersKept(s.tables, s'.tables, s.answers);
    forall q: nat | q < |s.clients| && q != r
      ensures ClientOk(s.clients[q], s'.toServer[q], s'.toClient[q], s'.server, s'.tables, q)
    {
      ServedOther(s, r, q);
    }
    forall q: nat | q < |s'.clients|
      ensures ClientOk(s'.clients[q], s'.toServer[q], s'.toClient[q], s'.server, s'.tables, q)
    {
    }
  }

  lemma ServedOther(s: State, r: nat, q: nat)
    requires Inv(s) && Enabled(s, Serve(r)) && q < |s.clients| && q != r
    ensures var s' := Serving(s, r);
            ClientOk(s.clients[q], s'.toServer[q], s'.toClient[q], s'.server, s'.tables, q)
  {
    var s' := Serving(s, r);
    ServeStep(s, r);
    assert ClientOk(s.clients[q], s.toServer[q], s.toClient[q], s.server, s.tables, q);
    ClientKept(s.clients[q], s.toServer[q], s.toClient[q], s.server, s.tables, s'.tables, q);
    OtherServed(s.clients[q], s.toServer[q], s.toClient[q], s.server, s'.server, s'.tables, q);
  }

  lemma InvKept(s: State, a: Action)
    requires Inv(s) && Enabled(s, a)
    ensures Inv(Next(s, a))
  {
    match a
    case Own(_, _) => OwnKept(s, a);
    case Serve(r) => ServeKept(s, r);
    case Begin(_, _, _) => BeginKept(s, a);
    case Send(_) => SendKept(s, a);
    case Receive(_) => ReceiveKept(s, a);
  }

  // ----- Runs

  ghost predicate StepAt(states: seq<State>, actions: seq<Action>, k: int) {
    && 0 <= k < |actions| && k + 1 < |states|
    && Shape(states[k]) && Enabled(states[k], actions[k]) && states[k + 1] == Next(states[k], actions[k])
  }

  ghost predicate Run(ranks: nat, states: seq<State>, actions: seq<Action>) {
    && |states| == |actions| + 1 && states[0] == Initial(ranks)
    && forall k :: 0 <= k < |actions| ==> StepAt(states, actions, k)
  }

  lemma {:induction false} RunKeepsInv(ranks: nat, states: seq<State>, actions: seq<Action>, k: nat)
    requires Run(ranks, states, actions) && k < |states|
    ensures Inv(states[k])
  {
    if k > 0 {
      RunKeepsInv(ranks, states, actions, k - 1);
      assert StepAt(states, actions, k - 1);
      InvKept(states[k - 1], actions[k - 1]);
    }
  }

  /** In every interleaving: the numbers under every key are consecutive and one-to-one,
    the answers given are those numbers, the server is never confused, and when it is
    ready, what comes next from any rank is the start of a request. */
  lemma Protocol(ranks: nat, states: seq<State>, actions: seq<Action>, k: nat)
    requires Run(ranks, states, actions) && k < |states|
    ensures Shape(states[k]) && AllDense(states[k].tables) && AnswersOk(states[k].tables, states[k].answers)
    ensures states[k].server != Confused
    ensures states[k].server.Ready? ==>
              forall r :: 0 <= r < |states[k].toServer| && states[k].toServer[r] != [] ==> states[k].toServer[r][0].Word?
  {
    RunKeepsInv(ranks, states, actions, k);
    var s := states[k];
    forall r | 0 <= r < |s.toServer| && s.server.Ready? && s.toServer[r] != []
      ensures s.toServer[r][0].Word?
    {
      assert ClientOk(s.clients[r], s.toServer[r], s.toClient[r], s.server, s.tables, r);
    }
  }

  /** Requests under the same key get equal answers exactly if they ask for the same
    physical index, whoever asks, and whenever. */
  lemma EqualAnswersIff(ranks: nat, states: seq<State>, actions: seq<Action>, k: nat, a: nat, b: nat)
    requires Run(ranks, states, actions) && k < |states|
    requires a < |states[k].answers| && b < |states[k].answers| && states[k].answers[a].key == states[k].answers[b].key
    ensures states[k].answers[a].v == states[k].answers[b].v <==> states[k].answers[a].x == states[k].answers[b].x
  {
    Protocol(ranks, states, actions, k);
    assert Dense(states[k].tables[states[k].answers[a].key]);
  }

  /** A rank that is asking is never stuck: it or the server can go on. */
  lemma Progress(s: State, r: nat) returns (a: Action)
    requires Inv(s) && r < |s.clients| && s.clients[r] != Idle
    ensures Enabled(s, a) && (a.Send? || a.Receive? || a.Serve?)
  {
    assert ClientOk(s.clients[r], s.toServer[r], s.toClient[r], s.server, s.tables, r);
    var c := s.clients[r];
    if c.sent < |Request(c.key, c.x)| {
      a := Send(r);
    } else if s.toClient[r] != [] {
      a := Receive(r);
    } else if Listens(s.server, r) {
      a := Serve(r);
    } else {
      var q := s.server.src;
      assert ClientOk(s.clients[q], s.toServer[q], s.toClient[q], s.server, s.tables, q);
      a := if s.toServer[q] != [] then Serve(q) else Send(q);
    }
  }
}
