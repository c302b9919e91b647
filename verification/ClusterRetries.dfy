/** How long a command is tried when nothing is cancelled, crashes or goes unacknowledged. */
module ClusterRetries {
  import opened Wrappers
  import opened Delivery
  import opened Cluster
  import opened ClusterSafety
  import opened ClusterLease
  import opened Folds
  import Backoff

  predicate Calm(move: Move) {
    match move
    case Cancel(_) => false
    case Crash(_) => false
    case LoseRead(_) => false
    case Act(_, effect) => Disposes(effect) ==> effect.landed
    case _ => true
  }

  ghost function CalmMoves(setup: Setup, budget: Budget): (State, Move) -> Option<State> {
    (s, move) => if Calm(move) && Enabled(setup, s, move) && Timely(setup.service, budget, Do(setup, s, move))
                 then Some(Do(setup, s, move)) else None
  }

  ghost function CalmReach(setup: Setup, budget: Budget, moves: seq<Move>): Option<State> {
    Run(CalmMoves(setup, budget), Initial(setup), moves)
  }

  /** A calm run is a timely run. */
  lemma CalmRunsAreTimely(setup: Setup, budget: Budget, moves: seq<Move>)
    requires CalmReach(setup, budget, moves).Some?
    ensures TimelyReach(setup, budget, moves) == CalmReach(setup, budget, moves)
  {
    hide Enabled, Do, Timely, Calm;
    StricterRun(CalmMoves(setup, budget), TimelyMoves(setup, budget), Initial(setup), moves);
  }

  ghost predicate Tried(s: State, id: nat) {
    exists k :: 0 <= k < |s.attempts| && Live(s.attempts[k]) && s.attempts[k].id == id
  }

  /** Nothing is cancelled or crashes. */
  ghost predicate Quiet(s: State) {
    forall k :: 0 <= k < |s.attempts| ==> !s.attempts[k].cancelled && !s.attempts[k].crashed
  }

  /** A command that has used up its retries is gone or in its last delivery. */
  ghost predicate LastTry(setup: Setup, s: State) {
    var limit := setup.service.config.retryLimit;
    && (forall id :: 0 <= id < |s.readCounts| ==> s.readCounts[id] <= limit + 1)
    && (forall id :: id in s.queue && id < |s.readCounts| ==> s.readCounts[id] <= limit || Tried(s, id))
  }

  ghost predicate Trying(setup: Setup, s: State) {
    Quiet(s) && LastTry(setup, s)
  }

  lemma QuietKept(setup: Setup, s: State, move: Move)
    requires Quiet(s) && Enabled(setup, s, move) && Calm(move)
    ensures Quiet(Do(setup, s, move))
  {
    if move.Act? {
      TouchedExtends(s, move.k, move.effect);
    }
    hide Next, Start, Touched, Leased;
  }

  lemma ActKeepsLastTry(setup: Setup, s: State, k: nat, effect: Effect)
    requires Sound(setup, s) && LeasesHeld(setup.service, s) && Trying(setup, s)
    requires CanAct(setup, s, k, effect) && Calm(Act(k, effect))
    ensures LastTry(setup, Do(setup, s, Act(k, effect)))
  {
    var t := Do(setup, s, Act(k, effect));
    TouchedExtends(s, k, effect);
    TouchedRemoves(s, k, effect);
    assert t.readCounts == s.readCounts && t.queue == Touched(s, k, effect).queue;
    if effect.SetVisibility? {
      RetriedWithinLimit(setup, s, k, effect);
    }
    hide Next, Touched, Sound, LeasesHeld, Tried, Do;
    forall id | id in t.queue && id < |t.readCounts| ensures t.readCounts[id] <= setup.service.config.retryLimit || Tried(t, id) {
      if s.readCounts[id] > setup.service.config.retryLimit {
        StillTried(setup, s, k, effect, id);
      }
    }
  }

  lemma TouchedRemoves(s: State, k: nat, effect: Effect)
    requires k < |s.attempts|
    ensures (effect.Delete? || effect.Archive?) && effect.landed ==> s.attempts[k].id !in Touched(s, k, effect).queue
    ensures forall id :: id in Touched(s, k, effect).queue ==> id in s.queue
  {
  }

  lemma StillTried(setup: Setup, s: State, k: nat, effect: Effect, id: nat)
    requires CanAct(setup, s, k, effect) && Tried(s, id) && (id != s.attempts[k].id || !Disposes(effect))
    ensures Tried(Do(setup, s, Act(k, effect)), id)
  {
    var t := Do(setup, s, Act(k, effect));
    TouchedExtends(s, k, effect);
    ActPhase(setup.service, s.attempts[k].readCount, s.attempts[k].phase, effect);
    hide Next, Touched;
    var j :| 0 <= j < |s.attempts| && Live(s.attempts[j]) && s.attempts[j].id == id;
    assert Live(t.attempts[j]) && t.attempts[j].id == id;
  }

  lemma RetriedWithinLimit(setup: Setup, s: State, k: nat, effect: Effect)
    requires Sound(setup, s) && LeasesHeld(setup.service, s) && Trying(setup, s)
    requires CanAct(setup, s, k, effect) && effect.SetVisibility?
    ensures var id := s.attempts[k].id;
            id < |s.readCounts| && s.readCounts[id] <= setup.service.config.retryLimit
  {
    var a := s.attempts[k];
    assert AttemptOk(setup, s, a);
    ActPhase(setup.service, a.readCount, a.phase, effect);
    assert Holds(setup.service, s, a);
    if a.phase == Requeueing {
      RequeueingIsCancelled(setup.service, a.readCount, s.sent[a.id], a.effects);
    }
    hide After, MonotoneSamples, Backoff.Delay;
  }

  lemma SameAttemptsTried(s: State, t: State)
    requires |s.attempts| <= |t.attempts| && forall k :: 0 <= k < |s.attempts| ==> t.attempts[k] == s.attempts[k]
    ensures forall id :: Tried(s, id) ==> Tried(t, id)
  {
    forall id | Tried(s, id) ensures Tried(t, id) {
      var k :| 0 <= k < |s.attempts| && Live(s.attempts[k]) && s.attempts[k].id == id;
      assert t.attempts[k] == s.attempts[k];
    }
  }

  lemma ReadKeepsLastTry(setup: Setup, budget: Budget, s: State, id: nat)
    requires WithinMargin(budget) && InLease(setup, budget, s) && Trying(setup, s) && Visible(s, id)
    ensures LastTry(setup, Do(setup, s, Read(id)))
  {
    VisibleIsFree(setup, budget, s, id);
    assert Placed(s) && !Tried(s, id);
    ReadParts(setup, s, id);
    var t := Do(setup, s, Read(id));
    SameAttemptsTried(s, t);
    assert Tried(t, id);
    hide InLease, Sound, LeasesHeld, Tried, Do, Start;
    forall other | other in t.queue && other < |t.readCounts| ensures t.readCounts[other] <= setup.service.config.retryLimit || Tried(t, other) {
      assert other != id ==> other in s.queue && t.readCounts[other] == s.readCounts[other];
    }
  }

  lemma LeasedParts(setup: Setup, s: State, id: nat)
    requires Placed(s) && Visible(s, id)
    ensures var t := Leased(setup, s, id);
            && t.queue.Keys == s.queue.Keys && t.readCounts == s.readCounts[id := s.readCounts[id] + 1]
            && t.attempts == s.attempts
  {
    hide Lease;
  }

  lemma StartedLive(setup: Setup, s: State, id: nat)
    requires Visible(s, id)
    ensures Started(setup, s, id).id == id && Live(Started(setup, s, id))
  {
    StartIsEarly(setup.service, s.sent[id]);
    hide Start;
  }

  lemma ReadParts(setup: Setup, s: State, id: nat)
    requires Placed(s) && Visible(s, id)
    ensures var t := Do(setup, s, Read(id));
            && t.queue.Keys == s.queue.Keys && t.readCounts == s.readCounts[id := s.readCounts[id] + 1]
            && |t.attempts| == |s.attempts| + 1
            && t.attempts[|s.attempts|].id == id && Live(t.attempts[|s.attempts|])
            && forall k :: 0 <= k < |s.attempts| ==> t.attempts[k] == s.attempts[k]
  {
    LeasedParts(setup, s, id);
    StartedLive(setup, s, id);
    hide Start, Leased, Started, Placed, Live;
  }

  lemma TryingKept(setup: Setup, budget: Budget, s: State, move: Move)
    requires WithinMargin(budget) && InLease(setup, budget, s) && Trying(setup, s)
    requires Enabled(setup, s, move) && Calm(move)
    ensures Trying(setup, Do(setup, s, move))
  {
    QuietKept(setup, s, move);
    if move.Act? {
      ActKeepsLastTry(setup, s, move.k, move.effect);
    } else if move.Read? {
      ReadKeepsLastTry(setup, budget, s, move.id);
    } else {
      SameAttemptsTried(s, Do(setup, s, move));
      hide Next, Start, InLease, Tried;
    }
  }

  lemma CalmStep(setup: Setup, budget: Budget, s: State, move: Move)
    requires WithinMargin(budget) && InLease(setup, budget, s) && Trying(setup, s)
    ensures var next := CalmMoves(setup, budget)(s, move);
            next.Some? ==> InLease(setup, budget, next.value) && Trying(setup, next.value)
  {
    hide Sound, Do, Enabled, LeasesHeld, Timely, Trying;
    if CalmMoves(setup, budget)(s, move).Some? {
      SoundKept(setup, s, move);
      LeasesKept(setup, budget, s, move);
      TryingKept(setup, budget, s, move);
    }
  }

  /**
   In a calm run a command is read at most one time more than the retry limit;
   after that last delivery it is no longer in the queue.
   */
  lemma LeavesTheQueue(setup: Setup, budget: Budget, moves: seq<Move>, id: nat)
    requires WithinMargin(budget) && CalmReach(setup, budget, moves).Some?
    ensures var s := CalmReach(setup, budget, moves).value;
            id < |s.readCounts| ==>
              && s.readCounts[id] <= setup.service.config.retryLimit + 1
              && (id in s.queue && s.readCounts[id] > setup.service.config.retryLimit ==> Tried(s, id))
  {
    var step := CalmMoves(setup, budget);
    InitiallySound(setup);
    InitiallyLeased(setup, budget);
    assert Trying(setup, Initial(setup));
    assert InLease(setup, budget, Initial(setup));
    hide InLease, Trying, CalmMoves;
    forall s, move | InLease(setup, budget, s) && Trying(setup, s) && step(s, move).Some?
      ensures InLease(setup, budget, step(s, move).value) && Trying(setup, step(s, move).value) {
      CalmStep(setup, budget, s, move);
    }
    RunKeeps(step, s => InLease(setup, budget, s) && Trying(setup, s), Initial(setup), moves);
    TryingMeans(setup, CalmReach(setup, budget, moves).value, id);
  }

  lemma TryingMeans(setup: Setup, s: State, id: nat)
    requires Trying(setup, s)
    ensures id < |s.readCounts| ==> s.readCounts[id] <= setup.service.config.retryLimit + 1
    ensures id < |s.readCounts| && id in s.queue && s.readCounts[id] > setup.service.config.retryLimit ==> Tried(s, id)
  {
  }
}
