/**
 All deliveries together: any number of workers over one command queue, one result
 queue and one object store, with crashes, lost reads, expiring leases,
 cancellations and calls whose effect and report differ. Times are in seconds.
 */
module Cluster {
  import opened Wrappers
  import opened Events
  import opened Delivery
  import opened Folds

  /** A row of the command queue. */
  datatype Row = Row(readCount: nat, visibleAt: int)

  /** One delivery of a command by some worker, live or past. */
  datatype Attempt = Attempt(
    id: nat,
    readCount: nat,
    readAt: int,
    phase: Phase,
    effects: seq<Effect>,
    cancelled: bool,
    crashed: bool)

  /** A row of the result queue, and the attempt that posted it. */
  datatype Posted = Posted(origin: nat, outcome: Outcome)

  /** A delayed retry, and the attempt that asked for it. */
  datatype Delayed = Delayed(origin: nat, delay: int)

  /** The queues and the store, every attempt so far, and which of them removed a row. */
  datatype State = State(
    now: int,
    sent: seq<Command>,
    readCounts: seq<nat>,
    queue: map<nat, Row>,
    deleted: map<nat, nat>,
    archived: map<nat, nat>,
    attempts: seq<Attempt>,
    results: seq<Posted>,
    retries: seq<Delayed>,
    store: map<string, Bytes>)

  datatype Setup = Setup(service: Service, store: map<string, Bytes>)

  datatype Move =
    | Send(command: Command)
    | Read(id: nat)
    | LoseRead(id: nat)
    | Act(k: nat, effect: Effect)
    | Cancel(k: nat)
    | Crash(k: nat)
    | Tick(seconds: nat)

  const MARGIN: int := 60

  function Initial(setup: Setup): State {
    State(0, [], [], map[], map[], map[], [], [], [], setup.store)
  }

  function Lease(service: Service): int {
    service.config.timeout + MARGIN
  }

  predicate Visible(s: State, id: nat) {
    id in s.queue && s.queue[id].visibleAt <= s.now && id < |s.sent| && id < |s.readCounts|
  }

  predicate CanAct(setup: Setup, s: State, k: nat, effect: Effect) {
    && k < |s.attempts| && !s.attempts[k].crashed
    && Next(setup.service, s.attempts[k].readCount, s.attempts[k].phase, effect).Some?
    && (effect.Sample? ==> effect.cancelled == s.attempts[k].cancelled)
    && (effect.Fetch? ==> effect.key in s.store && effect.content == s.store[effect.key])
  }

  predicate Enabled(setup: Setup, s: State, move: Move) {
    match move
    case Send(_) => true
    case Read(id) => Visible(s, id)
    case LoseRead(id) => Visible(s, id)
    case Act(k, effect) => CanAct(setup, s, k, effect)
    case Cancel(k) => k < |s.attempts|
    case Crash(k) => k < |s.attempts|
    case Tick(_) => true
  }

  /** A read counts and hides the row for the lease, whether or not its answer arrives. */
  function Leased(setup: Setup, s: State, id: nat): State
    requires Visible(s, id)
  {
    var readCount := s.queue[id].readCount + 1;
    s.(queue := s.queue[id := Row(readCount, s.now + Lease(setup.service))], readCounts := s.readCounts[id := readCount])
  }

  function Started(setup: Setup, s: State, id: nat): Attempt
    requires Visible(s, id)
  {
    Attempt(id, s.queue[id].readCount + 1, s.now, Start(setup.service, s.sent[id]), [], false, false)
  }

  function Advanced(setup: Setup, a: Attempt, effect: Effect): Attempt
    requires Next(setup.service, a.readCount, a.phase, effect).Some?
  {
    a.(phase := Next(setup.service, a.readCount, a.phase, effect).value, effects := a.effects + [effect])
  }

  /** What an effect of attempt k does to the queues and the store. */
  function Touched(s: State, k: nat, effect: Effect): State
    requires k < |s.attempts|
  {
    var id := s.attempts[k].id;
    match effect
    case Fetch(_, _) => s
    case Sample(_) => s
    case Store(key, content, landed, _) => if landed then s.(store := s.store[key := content]) else s
    case Enqueue(outcome, landed, _) => if landed then s.(results := s.results + [Posted(k, outcome)]) else s
    case Delete(landed, _) =>
      if landed && id in s.queue then s.(queue := s.queue - {id}, deleted := s.deleted[id := k]) else s
    case SetVisibility(delay, landed, _) =>
      var asked := if s.attempts[k].phase.Failing? then s.(retries := s.retries + [Delayed(k, delay)]) else s;
      if landed && id in s.queue
      then asked.(queue := s.queue[id := s.queue[id].(visibleAt := s.now + delay)]) else asked
    case Archive(landed, _) =>
      if landed && id in s.queue then s.(queue := s.queue - {id}, archived := s.archived[id := k]) else s
  }

  function Do(setup: Setup, s: State, move: Move): State
    requires Enabled(setup, s, move)
  {
    match move
    case Send(command) =>
      s.(sent := s.sent + [command], readCounts := s.readCounts + [0], queue := s.queue[|s.sent| := Row(0, s.now)])
    case Read(id) => Leased(setup, s, id).(attempts := s.attempts + [Started(setup, s, id)])
    case LoseRead(id) => Leased(setup, s, id)
    case Act(k, effect) =>
      Touched(s, k, effect).(attempts := s.attempts[k := Advanced(setup, s.attempts[k], effect)])
    case Cancel(k) => s.(attempts := s.attempts[k := s.attempts[k].(cancelled := true)])
    case Crash(k) => s.(attempts := s.attempts[k := s.attempts[k].(crashed := true)])
    case Tick(seconds) => s.(now := s.now + seconds)
  }

  function Moves(setup: Setup): (State, Move) -> Option<State> {
    (s, move) => if Enabled(setup, s, move) then Some(Do(setup, s, move)) else None
  }

  /** The state after a run; None if the run is impossible. */
  function Reach(setup: Setup, moves: seq<Move>): Option<State> {
    Run(Moves(setup), Initial(setup), moves)
  }
}
