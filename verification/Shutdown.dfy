/**
 Starting and closing the consumer (internal/mq/consumer.go): the wait group, the
 done channel, and workers between their select, a read and a message, in any
 interleaving. Starting may overlap closing.
 */
module Shutdown {
  import opened Wrappers
  import opened Folds

  datatype Worker = Selecting | Reading | Processing | Exited

  /** A call of Close: inside, past closing the channel, and returned. */
  datatype Closer = Entered | Waiting | Returned

  datatype ReadResult = Message | NoMessage | Failed

  datatype State = State(
    workers: seq<Worker>,
    waitGroup: int,
    starting: nat,
    cancelled: bool,
    closed: bool,
    timesClosed: nat,
    closers: seq<Closer>,
    readsStarted: nat,
    messages: nat,
    dispositions: nat)
  {
    /** How often the queue has been called: reads started and dispositions attempted. */
    function Touches(): nat {
      readsStarted + dispositions
    }
  }

  /**
   Add and Spawn are the two halves of one turn of the loop in Start; Select,
   ReadReturns and Dispose are a worker's loop; Close enters, signals and waits.
   */
  datatype Move =
    | Add
    | Spawn
    | Select(w: nat)
    | ReadReturns(w: nat, result: ReadResult)
    | Dispose(w: nat)
    | CancelContext
    | CallClose
    | Signal(c: nat)
    | WaitReturns(c: nat)

  const INITIAL: State := State([], 0, 0, false, false, 0, [], 0, 0, 0)

  predicate Enabled(s: State, move: Move) {
    match move
    case Add => true
    case Spawn => s.starting > 0
    case Select(w) => w < |s.workers| && s.workers[w] == Selecting
    case ReadReturns(w, _) => w < |s.workers| && s.workers[w] == Reading
    case Dispose(w) => w < |s.workers| && s.workers[w] == Processing
    case CancelContext => true
    case CallClose => true
    case Signal(c) => c < |s.closers| && s.closers[c] == Entered
    case WaitReturns(c) => c < |s.closers| && s.closers[c] == Waiting && s.waitGroup == 0
  }

  function Exit(s: State, w: nat): State
    requires w < |s.workers|
  {
    s.(workers := s.workers[w := Exited], waitGroup := s.waitGroup - 1)
  }

  function Do(s: State, move: Move): State
    requires Enabled(s, move)
  {
    match move
    case Add => s.(waitGroup := s.waitGroup + 1, starting := s.starting + 1)
    case Spawn => s.(starting := s.starting - 1, workers := s.workers + [Selecting])
    case Select(w) =>
      if s.closed || s.cancelled then Exit(s, w)
      else s.(workers := s.workers[w := Reading], readsStarted := s.readsStarted + 1)
    case ReadReturns(w, result) =>
      match result {
        case Message => s.(workers := s.workers[w := Processing], messages := s.messages + 1)
        case NoMessage => s.(workers := s.workers[w := Selecting])
        case Failed => if s.cancelled then Exit(s, w) else s.(workers := s.workers[w := Selecting])
      }
    case Dispose(w) =>
      s.(workers := s.workers[w := Selecting], dispositions := s.dispositions + 1)
    case CancelContext => s.(cancelled := true)
    case CallClose => s.(closers := s.closers + [Entered])
    case Signal(c) =>
      if s.closed then s.(closers := s.closers[c := Waiting])
      else s.(closers := s.closers[c := Waiting], closed := true, timesClosed := s.timesClosed + 1)
    case WaitReturns(c) => s.(closers := s.closers[c := Returned])
  }

  function Moves(): (State, Move) -> Option<State> {
    (s, move) => if Enabled(s, move) then Some(Do(s, move)) else None
  }

  function Reach(moves: seq<Move>): Option<State> {
    Run(Moves(), INITIAL, moves)
  }

  predicate Stopping(s: State) {
    s.cancelled || s.closed
  }

  // ----- counting workers -----

  function Count(workers: seq<Worker>, worker: Worker): nat {
    if workers == [] then 0
    else Count(workers[..|workers| - 1], worker) + (if workers[|workers| - 1] == worker then 1 else 0)
  }

  function Live(workers: seq<Worker>): nat {
    Count(workers, Selecting) + Count(workers, Reading) + Count(workers, Processing)
  }

  lemma CountSnoc(workers: seq<Worker>, last: Worker, worker: Worker)
    ensures Count(workers + [last], worker) == Count(workers, worker) + if last == worker then 1 else 0
  {
    assert (workers + [last])[..|workers|] == workers;
  }

  lemma {:induction false} CountChanged(workers: seq<Worker>, w: nat, next: Worker, worker: Worker)
    requires w < |workers|
    ensures Count(workers[w := next], worker)
         == Count(workers, worker) - (if workers[w] == worker then 1 else 0) + (if next == worker then 1 else 0)
  {
    var last := |workers| - 1;
    if w < last {
      CountChanged(workers[..last], w, next, worker);
      assert workers[w := next][..last] == workers[..last][w := next];
    } else {
      assert workers[w := next][..last] == workers[..last];
    }
  }

  lemma {:induction false} NoneCounted(workers: seq<Worker>, worker: Worker)
    ensures Count(workers, worker) == 0 <==> worker !in workers
  {
    if workers != [] {
      var front := workers[..|workers| - 1];
      NoneCounted(front, worker);
      assert workers == front + [workers[|workers| - 1]];
    }
  }

  // ----- what every interleaving keeps -----

  ghost predicate Kept(s: State) {
    && s.waitGroup == Live(s.workers) + s.starting
    && s.messages == s.dispositions + Count(s.workers, Processing)
    && s.timesClosed == (if s.closed then 1 else 0)
    && (Waiting in s.closers ==> s.closed)
    && (Returned in s.closers ==> s.closed && Reading !in s.workers && Processing !in s.workers)
    && (Exited in s.workers ==> Stopping(s))
  }

  lemma Changed(s: State, w: nat, next: Worker)
    requires w < |s.workers|
    ensures var workers := s.workers[w := next];
            && Live(workers) == Live(s.workers) - (if s.workers[w] == Exited then 0 else 1) + (if next == Exited then 0 else 1)
            && Count(workers, Processing)
               == Count(s.workers, Processing) - (if s.workers[w] == Processing then 1 else 0) + (if next == Processing then 1 else 0)
            && forall worker :: worker in workers ==> worker in s.workers || worker == next
  {
    CountChanged(s.workers, w, next, Selecting);
    CountChanged(s.workers, w, next, Reading);
    CountChanged(s.workers, w, next, Processing);
  }

  lemma Spawned(s: State)
    ensures var workers := s.workers + [Selecting];
            && Live(workers) == Live(s.workers) + 1 && Count(workers, Processing) == Count(s.workers, Processing)
            && forall worker :: worker in workers ==> worker in s.workers || worker == Selecting
  {
    CountSnoc(s.workers, Selecting, Selecting);
    CountSnoc(s.workers, Selecting, Reading);
    CountSnoc(s.workers, Selecting, Processing);
  }

  lemma WaitedOut(s: State)
    requires Kept(s) && s.waitGroup == 0
    ensures Live(s.workers) == s.starting == 0
    ensures Selecting !in s.workers && Reading !in s.workers && Processing !in s.workers
  {
    NoneCounted(s.workers, Selecting);
    NoneCounted(s.workers, Reading);
    NoneCounted(s.workers, Processing);
  }

  lemma WorkerKeeps(s: State, move: Move)
    requires Kept(s) && Enabled(s, move) && (move.Select? || move.ReadReturns? || move.Dispose?)
    ensures Kept(Do(s, move))
  {
    assert s.workers[move.w] in s.workers;
    Changed(s, move.w, Do(s, move).workers[move.w]);
    hide Live, Count;
  }

  lemma CloserKeeps(s: State, move: Move)
    requires Kept(s) && Enabled(s, move) && (move.CallClose? || move.Signal? || move.WaitReturns?)
    ensures Kept(Do(s, move))
  {
    if move.WaitReturns? {
      WaitedOut(s);
      assert s.closers[move.c] in s.closers;
    }
    hide Live, Count;
  }

  lemma StepKeeps(s: State, move: Move)
    requires Kept(s) && Enabled(s, move)
    ensures Kept(Do(s, move))
  {
    if move.Select? || move.ReadReturns? || move.Dispose? {
      WorkerKeeps(s, move);
    } else if move.CallClose? || move.Signal? || move.WaitReturns? {
      CloserKeeps(s, move);
    } else {
      Spawned(s);
      hide Live, Count;
    }
  }

  lemma AlwaysKept(moves: seq<Move>)
    requires Reach(moves).Some?
    ensures Kept(Reach(moves).value)
  {
    hide Kept, Do, Enabled;
    assert Kept(INITIAL) by {
      KeptAtFirst();
    }
    forall s, move | Kept(s) && Moves()(s, move).Some? ensures Kept(Moves()(s, move).value) {
      StepKeeps(s, move);
    }
    RunKeeps(Moves(), s => Kept(s), INITIAL, moves);
  }

  lemma KeptAtFirst()
    ensures Kept(INITIAL)
  {
  }

  /** The wait group counts the live workers, and those that Start is about to make; the channel is closed at most once. */
  lemma WaitGroupCountsWorkers(moves: seq<Move>)
    requires Reach(moves).Some?
    ensures var s := Reach(moves).value;
            s.waitGroup == Live(s.workers) + s.starting && s.timesClosed <= 1
  {
    AlwaysKept(moves);
    hide Reach;
  }

  /** When Close returns, no worker is live and every message that was read has had its disposition attempted. */
  lemma CloseReturnsQuiescent(moves: seq<Move>, c: nat)
    requires Reach(moves).Some? && Enabled(Reach(moves).value, WaitReturns(c))
    ensures var s := Reach(moves).value;
            && Live(s.workers) == 0 && s.starting == 0
            && s.messages == s.dispositions
  {
    AlwaysKept(moves);
    var s := Reach(moves).value;
    hide Reach;
    WaitedOut(s);
    NoneCounted(s.workers, Processing);
  }

  ghost predicate Quiet(s: State, touches: nat, messages: nat) {
    Kept(s) && Returned in s.closers && s.Touches() == touches && s.messages == messages
  }

  lemma StaysQuiet(s: State, move: Move, touches: nat, messages: nat)
    requires Quiet(s, touches, messages) && Enabled(s, move)
    ensures Quiet(Do(s, move), touches, messages)
  {
    StepKeeps(s, move);
    if move.Select? || move.ReadReturns? || move.Dispose? {
      assert s.workers[move.w] in s.workers;
    }
    var c :| 0 <= c < |s.closers| && s.closers[c] == Returned;
    hide Kept;
    KeptMeans(s);
    assert Do(s, move).closers[c] == Returned;
  }

  lemma KeptMeans(s: State)
    requires Kept(s) && Returned in s.closers
    ensures s.closed && Reading !in s.workers && Processing !in s.workers
    ensures s.messages == s.dispositions
  {
    NoneCounted(s.workers, Processing);
  }

  /**
   After Close has returned nothing touches the queue again: not on another Close,
   nor when Start is called late, whose workers leave at their first select.
   */
  lemma NothingAfterClose(moves: seq<Move>, more: seq<Move>)
    requires Reach(moves).Some? && Returned in Reach(moves).value.closers
    requires Reach(moves + more).Some?
    ensures var s, t := Reach(moves).value, Reach(moves + more).value;
            && t.Touches() == s.Touches() && t.messages == s.messages == t.dispositions
  {
    AlwaysKept(moves);
    AlwaysKept(moves + more);
    RunConcat(Moves(), INITIAL, moves, more);
    var s := Reach(moves).value;
    hide Kept, Do, Enabled;
    forall u, move | Quiet(u, s.Touches(), s.messages) && Moves()(u, move).Some?
      ensures Quiet(Moves()(u, move).value, s.Touches(), s.messages) {
      StaysQuiet(u, move, s.Touches(), s.messages);
    }
    RunKeeps(Moves(), u => Quiet(u, s.Touches(), s.messages), s, more);
    KeptMeans(Reach(moves + more).value);
  }

  // ----- cancellation -----

  /** Workers stay as long as nobody cancels or closes. */
  lemma NobodyLeavesEarly(moves: seq<Move>)
    requires Reach(moves).Some?
    ensures var s := Reach(moves).value;
            !s.cancelled && !s.closed ==> Exited !in s.workers && s.waitGroup == |s.workers| + s.starting
  {
    AlwaysKept(moves);
    var s := Reach(moves).value;
    hide Reach;
    AllCounted(s.workers);
    NoneCounted(s.workers, Exited);
  }

  lemma {:induction false} AllCounted(workers: seq<Worker>)
    ensures Live(workers) + Count(workers, Exited) == |workers|
  {
    if workers != [] {
      AllCounted(workers[..|workers| - 1]);
    }
  }

  predicate OfWorker(move: Move, w: nat) {
    || move == Select(w) || move == Dispose(w)
    || (move.ReadReturns? && move.w == w)
  }

  /**
   A worker leaves exactly at a select that finds the context done or the channel
   closed, and at a read that fails with the context done; the wait group then
   drops by one. At any other select it reads.
   */
  lemma LeavesExactly(moves: seq<Move>, move: Move, w: nat)
    requires Reach(moves).Some? && Enabled(Reach(moves).value, move) && OfWorker(move, w)
    ensures Reach(moves + [move]).Some?
    ensures var s, t := Reach(moves).value, Reach(moves + [move]).value;
            var leaves := (move.Select? && (s.cancelled || s.closed))
                       || (move.ReadReturns? && move.result == ReadResult.Failed && s.cancelled);
            && w < |t.workers| == |s.workers|
            && (t.workers[w] == Exited <==> leaves)
            && t.waitGroup == s.waitGroup - (if leaves then 1 else 0)
            && (move.Select? && !leaves ==> t.workers[w] == Reading && t.Touches() == s.Touches() + 1)
  {
    RunSnoc(Moves(), INITIAL, moves, move);
  }

  /** From a state that is stopping on: no read starts, and what is under way bounds what is still to come. */
  ghost predicate Winding(s: State, started: nat, messages: nat, dispositions: nat) {
    && Stopping(s) && s.readsStarted == started
    && s.messages + Count(s.workers, Reading) <= messages
    && s.dispositions + Count(s.workers, Reading) + Count(s.workers, Processing) <= dispositions
  }

  lemma StaysWinding(s: State, move: Move, started: nat, messages: nat, dispositions: nat)
    requires Winding(s, started, messages, dispositions) && Enabled(s, move)
    ensures Winding(Do(s, move), started, messages, dispositions)
  {
    if move.Select? || move.ReadReturns? || move.Dispose? {
      ChangedCounts(s.workers, move.w, Do(s, move).workers[move.w]);
    }
    SpawnedCounts(s.workers);
    hide Count;
  }

  lemma ChangedCounts(workers: seq<Worker>, w: nat, next: Worker)
    requires w < |workers|
    ensures forall worker ::
              Count(workers[w := next], worker)
              == Count(workers, worker) - (if workers[w] == worker then 1 else 0) + (if next == worker then 1 else 0)
  {
    forall worker
      ensures Count(workers[w := next], worker)
           == Count(workers, worker) - (if workers[w] == worker then 1 else 0) + (if next == worker then 1 else 0) {
      CountChanged(workers, w, next, worker);
    }
  }

  lemma SpawnedCounts(workers: seq<Worker>)
    ensures forall worker ::
              Count(workers + [Selecting], worker) == Count(workers, worker) + if worker == Selecting then 1 else 0
  {
    forall worker
      ensures Count(workers + [Selecting], worker) == Count(workers, worker) + if worker == Selecting then 1 else 0 {
      CountSnoc(workers, Selecting, worker);
    }
  }

  /**
   Once the context is cancelled, or the channel closed, no worker starts another
   read, whatever is spawned later: the queue is touched at most once more for every
   worker that was reading or processing, and a message can only come to those that
   were reading.
   */
  lemma CancelledStops(moves: seq<Move>, more: seq<Move>)
    requires Reach(moves).Some? && (Reach(moves).value.cancelled || Reach(moves).value.closed)
    requires Reach(moves + more).Some?
    ensures var s, t := Reach(moves).value, Reach(moves + more).value;
            && t.readsStarted == s.readsStarted
            && t.Touches() <= s.Touches() + Count(s.workers, Reading) + Count(s.workers, Processing)
            && t.messages <= s.messages + Count(s.workers, Reading)
  {
    RunConcat(Moves(), INITIAL, moves, more);
    var s := Reach(moves).value;
    var m := s.messages + Count(s.workers, Reading);
    var d := s.dispositions + Count(s.workers, Reading) + Count(s.workers, Processing);
    assert Winding(s, s.readsStarted, m, d);
    hide Winding, Do, Enabled;
    forall u, move | Winding(u, s.readsStarted, m, d) && Moves()(u, move).Some?
      ensures Winding(Moves()(u, move).value, s.readsStarted, m, d) {
      StaysWinding(u, move, s.readsStarted, m, d);
    }
    RunKeeps(Moves(), u => Winding(u, s.readsStarted, m, d), s, more);
    WindingMeans(Reach(moves + more).value, s.readsStarted, m, d);
  }

  lemma WindingMeans(s: State, started: nat, messages: nat, dispositions: nat)
    requires Winding(s, started, messages, dispositions)
    ensures s.readsStarted == started && s.messages <= messages && s.dispositions <= dispositions
  {
  }

  // ----- winding down -----

  /** What the started workers do by themselves. */
  predicate Progresses(move: Move) {
    move.Spawn? || move.Select? || move.ReadReturns? || move.Dispose?
  }

  /** How many such moves are left at most, once the service is stopping. */
  function MovesLeft(s: State): nat {
    4 * s.starting + Count(s.workers, Selecting) + 3 * Count(s.workers, Reading) + 2 * Count(s.workers, Processing)
  }

  lemma ProgressShrinks(s: State, move: Move)
    requires Stopping(s) && Enabled(s, move) && Progresses(move)
    ensures Stopping(Do(s, move)) && MovesLeft(Do(s, move)) < MovesLeft(s)
  {
    if !move.Spawn? {
      ChangedCounts(s.workers, move.w, Do(s, move).workers[move.w]);
    }
    SpawnedCounts(s.workers);
    hide Count;
  }

  /** In whatever order the workers move, they have stopped after a bounded number of moves. */
  lemma {:induction false} WindsDownInAnyOrder(s: State, more: seq<Move>)
    requires Stopping(s) && Run(Moves(), s, more).Some?
    requires forall i :: 0 <= i < |more| ==> Progresses(more[i])
    ensures |more| + MovesLeft(Run(Moves(), s, more).value) <= MovesLeft(s)
    decreases |more|
  {
    hide MovesLeft, Do, Enabled;
    if more != [] {
      ProgressShrinks(s, more[0]);
      WindsDownInAnyOrder(Do(s, more[0]), more[1..]);
    }
  }

  lemma SomeoneMoves(s: State) returns (move: Move)
    requires Kept(s) && s.waitGroup > 0
    ensures Enabled(s, move) && Progresses(move)
  {
    NoneCounted(s.workers, Selecting);
    NoneCounted(s.workers, Reading);
    NoneCounted(s.workers, Processing);
    if s.starting > 0 {
      move := Spawn;
    } else if Selecting in s.workers {
      var w :| 0 <= w < |s.workers| && s.workers[w] == Selecting;
      move := Select(w);
    } else if Reading in s.workers {
      var w :| 0 <= w < |s.workers| && s.workers[w] == Reading;
      move := ReadReturns(w, NoMessage);
    } else {
      var w :| 0 <= w < |s.workers| && s.workers[w] == Processing;
      move := Dispose(w);
    }
  }

  lemma {:induction false} WindDown(s: State) returns (more: seq<Move>)
    requires Kept(s) && Stopping(s)
    ensures forall i :: 0 <= i < |more| ==> Progresses(more[i])
    ensures Run(Moves(), s, more).Some? && Run(Moves(), s, more).value.waitGroup == 0
    decreases MovesLeft(s)
  {
    hide Kept, MovesLeft, Do, Enabled, Stopping;
    WaitGroupIsNatural(s);
    if s.waitGroup == 0 {
      more := [];
    } else {
      var move := SomeoneMoves(s);
      ProgressShrinks(s, move);
      StepKeeps(s, move);
      var rest := WindDown(Do(s, move));
      more := [move] + rest;
      assert more[1..] == rest;
    }
  }

  lemma WaitGroupIsNatural(s: State)
    requires Kept(s)
    ensures s.waitGroup >= 0
  {
  }

  /**
   A cancelled context alone empties the wait group: as long as it is not empty some
   worker can move, and after boundedly many such moves, in any order, it is. So
   there is a continuation without Close that gets there.
   */
  lemma CancelledWindsDown(moves: seq<Move>) returns (more: seq<Move>)
    requires Reach(moves).Some? && (Reach(moves).value.cancelled || Reach(moves).value.closed)
    ensures forall i :: 0 <= i < |more| ==> Progresses(more[i])
    ensures Reach(moves + more).Some? && Reach(moves + more).value.waitGroup == 0
    ensures |more| <= MovesLeft(Reach(moves).value)
  {
    AlwaysKept(moves);
    more := WindDown(Reach(moves).value);
    WindsDownInAnyOrder(Reach(moves).value, more);
    RunConcat(Moves(), INITIAL, moves, more);
  }
}
