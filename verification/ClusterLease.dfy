/** Who holds a command when, and for how long it is tried. */
module ClusterLease {
  import opened Wrappers
  import opened Errors
  import opened Events
  import opened Delivery
  import opened Cluster
  import opened ClusterSafety
  import opened Folds
  import Backoff

  /** How long a read's answer may take, and how long an acknowledgement may take. */
  datatype Budget = Budget(read: nat, ack: nat)

  /** The limit that the shutdown requeue sets itself. */
  const REQUEUE_CAP: nat := 5

  predicate Live(a: Attempt) {
    !a.crashed && !a.phase.Finished?
  }

  predicate InHandler(phase: Phase) {
    phase.Working? || phase.Fetched? || phase.Doomed? || phase.Stored?
  }

  /** When an attempt has left its phase, if handlers return by their deadline and calls keep to the budget. */
  function Deadline(service: Service, budget: Budget, a: Attempt): int {
    var returned := a.readAt + budget.read + service.config.timeout;
    if InHandler(a.phase) then returned
    else if a.phase.Requeueing? then returned + REQUEUE_CAP
    else returned + budget.ack
  }

  ghost predicate Timely(service: Service, budget: Budget, s: State) {
    forall k :: 0 <= k < |s.attempts| && Live(s.attempts[k]) ==> s.now <= Deadline(service, budget, s.attempts[k])
  }

  /** The moves that keep to the budget. */
  ghost function TimelyMoves(setup: Setup, budget: Budget): (State, Move) -> Option<State> {
    (s, move) => if Enabled(setup, s, move) && Timely(setup.service, budget, Do(setup, s, move))
                 then Some(Do(setup, s, move)) else None
  }

  ghost function TimelyReach(setup: Setup, budget: Budget, moves: seq<Move>): Option<State> {
    Run(TimelyMoves(setup, budget), Initial(setup), moves)
  }

  /** A timely run is a run; all that holds in every run holds in it. */
  lemma TimelyRunsAreRuns(setup: Setup, budget: Budget, moves: seq<Move>)
    requires TimelyReach(setup, budget, moves).Some?
    ensures Reach(setup, moves) == TimelyReach(setup, budget, moves)
  {
    hide Enabled, Do, Timely;
    StricterRun(TimelyMoves(setup, budget), Moves(setup), Initial(setup), moves);
  }

  /** A minute of margin covers both, whether the message is acknowledged or given back. */
  predicate WithinMargin(budget: Budget) {
    budget.read + budget.ack < 60 && budget.read + 5 < 60
  }

  /** A live attempt holds the lease of its own read. */
  ghost predicate Holds(service: Service, s: State, a: Attempt) {
    && a.id in s.queue && s.queue[a.id].readCount == a.readCount
    && s.queue[a.id].visibleAt == a.readAt + Lease(service)
  }

  ghost predicate LeasesHeld(service: Service, s: State) {
    forall k :: 0 <= k < |s.attempts| && Live(s.attempts[k]) ==> Holds(service, s, s.attempts[k])
  }

  /** No two live attempts at one command. */
  ghost predicate Exclusive(s: State) {
    forall j, k :: 0 <= j < k < |s.attempts| && Live(s.attempts[j]) && Live(s.attempts[k]) ==>
      s.attempts[j].id != s.attempts[k].id
  }

  lemma HoldersAreExclusive(setup: Setup, s: State)
    requires ReadsClimb(s) && LeasesHeld(setup.service, s)
    ensures Exclusive(s)
  {
    forall j, k | 0 <= j < k < |s.attempts| && Live(s.attempts[j]) && Live(s.attempts[k])
      ensures s.attempts[j].id != s.attempts[k].id {
      assert Holds(setup.service, s, s.attempts[j]) && Holds(setup.service, s, s.attempts[k]);
    }
  }

  lemma VisibleIsFree(setup: Setup, budget: Budget, s: State, id: nat)
    requires WithinMargin(budget) && LeasesHeld(setup.service, s) && Timely(setup.service, budget, s) && Visible(s, id)
    ensures forall k :: 0 <= k < |s.attempts| && Live(s.attempts[k]) ==> s.attempts[k].id != id
  {
    forall k | 0 <= k < |s.attempts| && Live(s.attempts[k]) ensures s.attempts[k].id != id {
      assert Holds(setup.service, s, s.attempts[k]);
    }
  }

  /** An effect of attempt k leaves every other command's row alone, and k's own too unless it disposes. */
  lemma TouchedRows(s: State, k: nat, effect: Effect)
    requires k < |s.attempts|
    ensures var t := Touched(s, k, effect);
            && (forall id :: id in s.queue && id != s.attempts[k].id ==> id in t.queue && t.queue[id] == s.queue[id])
            && (!Disposes(effect) ==> t.queue == s.queue)
  {
  }

  lemma LeasesKeptByAct(setup: Setup, s: State, k: nat, effect: Effect)
    requires Sound(setup, s) && LeasesHeld(setup.service, s) && CanAct(setup, s, k, effect)
    ensures LeasesHeld(setup.service, Do(setup, s, Act(k, effect)))
  {
    var t := Do(setup, s, Act(k, effect));
    HoldersAreExclusive(setup, s);
    TouchedRows(s, k, effect);
    TouchedExtends(s, k, effect);
    ActPhase(setup.service, s.attempts[k].readCount, s.attempts[k].phase, effect);
    hide Next, Touched, Sound, Lease;
    forall j | 0 <= j < |t.attempts| && Live(t.attempts[j]) ensures Holds(setup.service, t, t.attempts[j]) {
      assert Live(s.attempts[j]);
      assert Holds(setup.service, s, s.attempts[j]);
      if j != k {
        assert t.attempts[j] == s.attempts[j] && s.attempts[j].id != s.attempts[k].id;
      }
    }
  }

  lemma ActPhase(service: Service, readCount: nat, phase: Phase, effect: Effect)
    requires Next(service, readCount, phase, effect).Some?
    ensures !phase.Finished?
    ensures Disposes(effect) <==> Next(service, readCount, phase, effect).value.Finished?
  {
  }

  lemma LeasesKept(setup: Setup, budget: Budget, s: State, move: Move)
    requires WithinMargin(budget) && Sound(setup, s) && LeasesHeld(setup.service, s) && Timely(setup.service, budget, s)
    requires Enabled(setup, s, move)
    ensures LeasesHeld(setup.service, Do(setup, s, move))
  {
    if move.Act? {
      LeasesKeptByAct(setup, s, move.k, move.effect);
    } else {
      var t := Do(setup, s, move);
      if move.Read? || move.LoseRead? {
        VisibleIsFree(setup, budget, s, move.id);
      }
      assert move.Send? ==> |s.sent| !in s.queue by {
        hide AttemptsOk, ReadsClimb, ResultsLanded, Removed;
      }
      hide Next, Start, Sound, Timely;
      forall k | 0 <= k < |t.attempts| && Live(t.attempts[k]) ensures Holds(setup.service, t, t.attempts[k]) {
        if k < |s.attempts| {
          assert Holds(setup.service, s, s.attempts[k]);
        }
      }
    }
  }

  ghost predicate InLease(setup: Setup, budget: Budget, s: State) {
    Sound(setup, s) && LeasesHeld(setup.service, s) && Timely(setup.service, budget, s)
  }

  lemma AlwaysLeased(setup: Setup, budget: Budget, moves: seq<Move>)
    requires WithinMargin(budget) && TimelyReach(setup, budget, moves).Some?
    ensures InLease(setup, budget, TimelyReach(setup, budget, moves).value)
  {
    var step := TimelyMoves(setup, budget);
    InitiallySound(setup);
    hide Sound, Do, Enabled, LeasesHeld, Timely;
    InitiallyLeased(setup, budget);
    forall s, move | InLease(setup, budget, s) && step(s, move).Some? ensures InLease(setup, budget, step(s, move).value) {
      SoundKept(setup, s, move);
      LeasesKept(setup, budget, s, move);
    }
    RunKeeps(step, s => InLease(setup, budget, s), Initial(setup), moves);
  }

  lemma InitiallyLeased(setup: Setup, budget: Budget)
    ensures LeasesHeld(setup.service, Initial(setup)) && Timely(setup.service, budget, Initial(setup))
  {
  }

  /**
   Within the margin, no two workers ever hold one command, and as long as an
   attempt has not disposed of its message the row is hidden by its own lease.
   */
  lemma LeaseExclusion(setup: Setup, budget: Budget, moves: seq<Move>)
    requires WithinMargin(budget) && TimelyReach(setup, budget, moves).Some?
    ensures var s := TimelyReach(setup, budget, moves).value;
            && Exclusive(s)
            && forall k :: 0 <= k < |s.attempts| && Live(s.attempts[k]) ==>
                 var a := s.attempts[k];
                 a.id in s.queue && s.queue[a.id].readCount == a.readCount && s.now < s.queue[a.id].visibleAt
  {
    AlwaysLeased(setup, budget, moves);
    var s := TimelyReach(setup, budget, moves).value;
    hide TimelyReach;
    HoldersAreExclusive(setup, s);
    forall k | 0 <= k < |s.attempts| && Live(s.attempts[k])
      ensures Holds(setup.service, s, s.attempts[k]) && s.now < s.queue[s.attempts[k].id].visibleAt {
    }
  }

  // ----- the margin is needed -----

  ghost predicate LeasesSuffice(setup: Setup, budget: Budget) {
    forall moves :: TimelyReach(setup, budget, moves).Some? ==> Exclusive(TimelyReach(setup, budget, moves).value)
  }

  lemma TimelySnoc(setup: Setup, budget: Budget, moves: seq<Move>, move: Move)
    requires TimelyReach(setup, budget, moves).Some?
    requires var s := TimelyReach(setup, budget, moves).value;
             Enabled(setup, s, move) && Timely(setup.service, budget, Do(setup, s, move))
    ensures TimelyReach(setup, budget, moves + [move])
         == Some(Do(setup, TimelyReach(setup, budget, moves).value, move))
  {
    hide Enabled, Do, Timely;
    RunSnoc(TimelyMoves(setup, budget), Initial(setup), moves, move);
  }

  /** One command, read once at time 0 and still held. */
  ghost predicate Held(setup: Setup, s: State, phase: Phase) {
    && s.now == 0 && |s.sent| == |s.readCounts| == |s.attempts| == 1 && 0 in s.queue
    && s.queue[0].visibleAt == Lease(setup.service) && s.queue[0].readCount == 1
    && s.attempts[0].id == 0 && s.attempts[0].readCount == 1 && s.attempts[0].readAt == 0
    && !s.attempts[0].crashed && s.attempts[0].phase == phase
  }

  function Valid(setup: Setup): Command {
    Command("", setup.service.config.messageType, Some([]))
  }

  lemma FirstRead(setup: Setup, budget: Budget) returns (moves: seq<Move>)
    ensures moves == [Send(Valid(setup)), Read(0)] && TimelyReach(setup, budget, moves).Some?
    ensures Held(setup, TimelyReach(setup, budget, moves).value, Start(setup.service, Valid(setup)))
  {
    hide Start, Next;
    assert TimelyReach(setup, budget, []) == Some(Initial(setup));
    TimelySnoc(setup, budget, [], Send(Valid(setup)));
    var s := Do(setup, Initial(setup), Send(Valid(setup)));
    assert [] + [Send(Valid(setup))] == [Send(Valid(setup))];
    TimelySnoc(setup, budget, [Send(Valid(setup))], Read(0));
    moves := [Send(Valid(setup))] + [Read(0)];
  }

  lemma CanLose(service: Service, readCount: nat, phase: Phase)
    requires phase.Working? || (phase.Doomed? && phase.reason == Rejected)
    ensures Next(service, readCount, phase, Enqueue(Failed(NewFailEvent(phase.job, Rejected)), false, false))
         == Some(Returned(Retryable))
  {
  }

  /** Whatever the command holds, its handler can return at once without an answer. */
  lemma HandlerReturns(setup: Setup, budget: Budget) returns (moves: seq<Move>, verdict: Verdict)
    ensures TimelyReach(setup, budget, moves).Some?
    ensures Held(setup, TimelyReach(setup, budget, moves).value, Returned(verdict)) && verdict in {Plain, Retryable}
  {
    StartIsEarly(setup.service, Valid(setup));
    moves := FirstRead(setup, budget);
    var s := TimelyReach(setup, budget, moves).value;
    var phase := s.attempts[0].phase;
    hide Start, TimelyReach, Do, Enabled, Timely, Held;
    if phase.Returned? {
      verdict := Plain;
    } else {
      LosesResult(setup, budget, s, phase);
      var lost := Act(0, Enqueue(Failed(NewFailEvent(phase.job, Rejected)), false, false));
      TimelySnoc(setup, budget, moves, lost);
      moves, verdict := moves + [lost], Retryable;
    }
  }

  lemma LosesResult(setup: Setup, budget: Budget, s: State, phase: Phase)
    requires Held(setup, s, phase) && (phase.Working? || (phase.Doomed? && phase.reason == Rejected))
    ensures var lost := Act(0, Enqueue(Failed(NewFailEvent(phase.job, Rejected)), false, false));
            && Enabled(setup, s, lost) && Timely(setup.service, budget, Do(setup, s, lost))
            && Held(setup, Do(setup, s, lost), Returned(Retryable))
  {
    CanLose(setup.service, s.attempts[0].readCount, phase);
    hide Next;
  }

  /** ... and a cancelled worker gives the message back. */
  lemma GivingBack(setup: Setup, budget: Budget) returns (moves: seq<Move>)
    ensures TimelyReach(setup, budget, moves).Some?
    ensures Held(setup, TimelyReach(setup, budget, moves).value, Requeueing)
  {
    var verdict;
    moves, verdict := HandlerReturns(setup, budget);
    hide TimelyReach, Start, Backoff.Delay, MayPublish;
    TimelySnoc(setup, budget, moves, Cancel(0));
    moves := moves + [Cancel(0)];
    TimelySnoc(setup, budget, moves, Act(0, Sample(true)));
    moves := moves + [Act(0, Sample(true))];
  }

  /** A holder that may take as long as the lease still holds the command when the next one reads it. */
  lemma Overlap(setup: Setup, budget: Budget, moves: seq<Move>, phase: Phase)
    requires TimelyReach(setup, budget, moves).Some? && Held(setup, TimelyReach(setup, budget, moves).value, phase)
    requires !phase.Finished? && Lease(setup.service) <= Deadline(setup.service, budget, TimelyReach(setup, budget, moves).value.attempts[0])
    ensures !LeasesSuffice(setup, budget)
  {
    StartIsEarly(setup.service, Valid(setup));
    hide TimelyReach, Start, Next;
    var wait := Tick(Lease(setup.service));
    TimelySnoc(setup, budget, moves, wait);
    var later := moves + [wait];
    var s := TimelyReach(setup, budget, later).value;
    StartIsEarly(setup.service, s.sent[0]);
    TimelySnoc(setup, budget, later, Read(0));
    var t := TimelyReach(setup, budget, later + [Read(0)]).value;
    assert Live(t.attempts[0]) && Live(t.attempts[1]) && t.attempts[0].id == t.attempts[1].id;
  }

  /**
   The lease keeps workers apart exactly within the margin: a minute more than
   the handler's timeout is needed, and enough.
   */
  lemma LeasesSufficeExactly(setup: Setup, budget: Budget)
    ensures LeasesSuffice(setup, budget) <==> WithinMargin(budget)
  {
    if WithinMargin(budget) {
      forall moves | TimelyReach(setup, budget, moves).Some? ensures Exclusive(TimelyReach(setup, budget, moves).value) {
        LeaseExclusion(setup, budget, moves);
      }
    } else if budget.read + budget.ack >= MARGIN {
      var moves, verdict := HandlerReturns(setup, budget);
      Overlap(setup, budget, moves, Returned(verdict));
    } else {
      var moves := GivingBack(setup, budget);
      Overlap(setup, budget, moves, Requeueing);
    }
  }

  // ----- what was given back is waited for -----

  /** Nobody holds the command, and its row is as it was given back, to be read from `until` on. */
  ghost predicate Resting(s: State, id: nat, readCount: nat, until: int) {
    && id in s.queue && s.queue[id] == Row(readCount, until)
    && id < |s.sent| && id < |s.readCounts| && s.readCounts[id] == readCount
    && forall k :: 0 <= k < |s.attempts| && Live(s.attempts[k]) ==> s.attempts[k].id != id
  }

  /** It rests, or that time has come and it has been read again. */
  ghost predicate WaitedFor(setup: Setup, s: State, id: nat, readCount: nat, until: int) {
    && Sound(setup, s)
    && (|| Resting(s, id, readCount, until)
        || (until <= s.now && id < |s.readCounts| && s.readCounts[id] > readCount))
  }

  lemma GivenBack(setup: Setup, s: State, k: nat, effect: Effect)
    requires Sound(setup, s) && LeasesHeld(setup.service, s)
    requires CanAct(setup, s, k, effect) && effect.SetVisibility? && effect.landed
    ensures var a := s.attempts[k];
            Resting(Do(setup, s, Act(k, effect)), a.id, a.readCount, s.now + effect.delay)
  {
    var t, a := Do(setup, s, Act(k, effect)), s.attempts[k];
    HoldersAreExclusive(setup, s);
    ActPhase(setup.service, a.readCount, a.phase, effect);
    TouchedExtends(s, k, effect);
    assert Live(a);
    assert Holds(setup.service, s, a) && AttemptOk(setup, s, a);
    hide Next, After, MonotoneSamples, ReadsClimb, ResultsLanded, Removed;
    forall j | 0 <= j < |t.attempts| && Live(t.attempts[j]) ensures t.attempts[j].id != a.id {
      assert j != k && t.attempts[j] == s.attempts[j];
    }
  }

  lemma KeepsResting(setup: Setup, s: State, move: Move, id: nat, readCount: nat, until: int)
    requires Placed(s) && Resting(s, id, readCount, until) && Enabled(setup, s, move)
    requires (move.Read? || move.LoseRead?) ==> move.id != id
    ensures Resting(Do(setup, s, move), id, readCount, until)
  {
    if move.Act? {
      ActElsewhere(setup, s, move.k, move.effect, id, readCount, until);
    } else {
      hide Next, Start, Touched;
    }
  }

  lemma ActElsewhere(setup: Setup, s: State, k: nat, effect: Effect, id: nat, readCount: nat, until: int)
    requires Resting(s, id, readCount, until) && CanAct(setup, s, k, effect)
    ensures Resting(Do(setup, s, Act(k, effect)), id, readCount, until)
  {
    ActPhase(setup.service, s.attempts[k].readCount, s.attempts[k].phase, effect);
    TouchedRows(s, k, effect);
    TouchedExtends(s, k, effect);
    assert Live(s.attempts[k]);
    hide Next, Touched;
  }

  lemma ReadsOnlyGrow(setup: Setup, s: State, move: Move, id: nat)
    requires Placed(s) && Enabled(setup, s, move) && id < |s.readCounts|
    ensures var t := Do(setup, s, move);
            s.now <= t.now && id < |t.readCounts| && s.readCounts[id] <= t.readCounts[id]
    ensures (move.Read? || move.LoseRead?) && move.id == id ==> Do(setup, s, move).readCounts[id] == s.readCounts[id] + 1
  {
    if move.Act? {
      TouchedExtends(s, move.k, move.effect);
    }
    hide Next, Start, Touched;
  }

  lemma StaysWaitedFor(setup: Setup, s: State, move: Move, id: nat, readCount: nat, until: int)
    requires WaitedFor(setup, s, id, readCount, until) && Enabled(setup, s, move)
    ensures WaitedFor(setup, Do(setup, s, move), id, readCount, until)
  {
    SoundKept(setup, s, move);
    ReadsOnlyGrow(setup, s, move, id);
    assert Placed(s);
    var rests := Resting(s, id, readCount, until);
    if rests && !((move.Read? || move.LoseRead?) && move.id == id) {
      KeepsResting(setup, s, move, id, readCount, until);
    } else if rests {
      assert s.queue[id].visibleAt <= s.now;
    }
    hide Do, Sound;
  }

  /**
   Within the margin a message that was given back with a delay is read neither
   before the delay has run out, answered or lost, nor kept hidden for longer.
   */
  lemma RetryIsWaitedFor(setup: Setup, budget: Budget, moves: seq<Move>, k: nat, effect: Effect, more: seq<Move>)
    requires WithinMargin(budget) && TimelyReach(setup, budget, moves).Some?
    requires CanAct(setup, TimelyReach(setup, budget, moves).value, k, effect) && effect.SetVisibility? && effect.landed
    requires Reach(setup, moves + [Act(k, effect)] + more).Some?
    ensures var s, t := TimelyReach(setup, budget, moves).value, Reach(setup, moves + [Act(k, effect)] + more).value;
            var a := s.attempts[k];
            && a.id < |s.readCounts| && a.id < |t.readCounts|
            && (t.now < s.now + effect.delay ==> t.readCounts[a.id] == a.readCount && !Visible(t, a.id))
            && (t.now >= s.now + effect.delay ==> t.readCounts[a.id] > a.readCount || Visible(t, a.id))
  {
    AlwaysLeased(setup, budget, moves);
    TimelyRunsAreRuns(setup, budget, moves);
    var s := TimelyReach(setup, budget, moves).value;
    var a, until := s.attempts[k], s.now + effect.delay;
    var u := Do(setup, s, Act(k, effect));
    hide TimelyReach, Do, CanAct, LeasesHeld, Timely, AttemptsOk, ReadsClimb, ResultsLanded, Removed;
    GivenBack(setup, s, k, effect);
    SoundKept(setup, s, Act(k, effect));
    assert Reach(setup, moves + [Act(k, effect)]) == Some(u) by {
      RunSnoc(Moves(setup), Initial(setup), moves, Act(k, effect));
    }
    Waits(setup, moves + [Act(k, effect)], more, a.id, a.readCount, until);
    assert AttemptOk(setup, s, a) by {
      assert AttemptsOk(setup, s);
      AttemptIsOk(setup, s, k);
    }
  }

  lemma AttemptIsOk(setup: Setup, s: State, k: nat)
    requires AttemptsOk(setup, s) && k < |s.attempts|
    ensures AttemptOk(setup, s, s.attempts[k])
  {
  }

  lemma Waits(setup: Setup, moves: seq<Move>, more: seq<Move>, id: nat, readCount: nat, until: int)
    requires Reach(setup, moves).Some? && Reach(setup, moves + more).Some?
    requires WaitedFor(setup, Reach(setup, moves).value, id, readCount, until)
    ensures WaitedFor(setup, Reach(setup, moves + more).value, id, readCount, until)
  {
    RunConcat(Moves(setup), Initial(setup), moves, more);
    var s := Reach(setup, moves).value;
    hide Do, Enabled, WaitedFor;
    forall v, move | WaitedFor(setup, v, id, readCount, until) && Moves(setup)(v, move).Some?
      ensures WaitedFor(setup, Moves(setup)(v, move).value, id, readCount, until) {
      StaysWaitedFor(setup, v, move, id, readCount, until);
    }
    RunKeeps(Moves(setup), v => WaitedFor(setup, v, id, readCount, until), s, more);
  }
}
