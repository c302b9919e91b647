/** Why a command never gets stuck: from every calm state there is a calm way out of the queue. */
module ClusterProgress {
  import opened Wrappers
  import opened Errors
  import opened Events
  import opened Delivery
  import opened Cluster
  import opened ClusterSafety
  import opened ClusterLease
  import opened ClusterRetries
  import opened Folds
  import Backoff

  ghost predicate Steady(setup: Setup, budget: Budget, s: State) {
    Sound(setup, s) && Quiet(s) && Timely(setup.service, budget, s)
  }

  /** A calm run from one state to another. */
  ghost predicate Leads(setup: Setup, budget: Budget, s: State, moves: seq<Move>, t: State) {
    Run(CalmMoves(setup, budget), s, moves) == Some(t)
  }

  lemma LeadsNowhere(setup: Setup, budget: Budget, s: State)
    ensures Leads(setup, budget, s, [], s)
  {
  }

  lemma LeadsOn(setup: Setup, budget: Budget, s: State, moves: seq<Move>, t: State, more: seq<Move>, u: State)
    requires Leads(setup, budget, s, moves, t) && Leads(setup, budget, t, more, u)
    ensures Leads(setup, budget, s, moves + more, u)
  {
    hide CalmMoves;
    RunConcat(CalmMoves(setup, budget), s, moves, more);
  }

  lemma LeadsByOne(setup: Setup, budget: Budget, s: State, move: Move)
    requires Steady(setup, budget, s) && Calm(move) && Enabled(setup, s, move)
    requires Timely(setup.service, budget, Do(setup, s, move))
    ensures Leads(setup, budget, s, [move], Do(setup, s, move)) && Steady(setup, budget, Do(setup, s, move))
  {
    SoundKept(setup, s, move);
    QuietKept(setup, s, move);
    hide Sound, Quiet, Timely, Calm, Enabled, Do;
    RunOne(CalmMoves(setup, budget), s, move);
  }

  // ----- a way through one delivery -----

  function Rank(phase: Phase): nat {
    match phase
    case Finished => 0
    case Rejecting => 1
    case Completing => 1
    case Requeueing => 1
    case Failing(_) => 1
    case ShutdownCheck(_) => 2
    case Returned(_) => 3
    case _ => 4
  }

  /** What an attempt can do next, with every call succeeding. */
  function NextEffect(service: Service, a: Attempt): Effect {
    match a.phase
    case Rejecting => Archive(true, true)
    case Working(job, _) => Enqueue(Failed(NewFailEvent(job, Internal)), true, true)
    case Fetched(job, _, _) => Enqueue(Failed(NewFailEvent(job, DownloadFailed)), true, true)
    case Doomed(job, reason) => Enqueue(Failed(NewFailEvent(job, reason)), true, true)
    case Stored(job, spec, source) => Enqueue(CompletedFrom(service.tools, job, spec, source), true, true)
    case Completing => Delete(true, true)
    case Requeueing => SetVisibility(0, true, true)
    case Failing(verdict) =>
      if BacksOff(service.config, a.readCount, verdict) then SetVisibility(Backoff.Delay(a.readCount), true, true)
      else Archive(true, true)
    case _ => Sample(false)
  }

  /** Phases from which that way ends with the row removed. */
  predicate Closing(phase: Phase) {
    match phase
    case Returned(verdict) => verdict != Retryable
    case ShutdownCheck(verdict) => verdict != Retryable
    case Failing(verdict) => verdict != Retryable
    case Requeueing => false
    case _ => true
  }

  lemma NextEffectWorks(service: Service, a: Attempt)
    requires !a.phase.Finished?
    ensures var effect := NextEffect(service, a);
            var next := Next(service, a.readCount, a.phase, effect);
            && next.Some? && Rank(next.value) < Rank(a.phase) && !InHandler(next.value)
            && (next.value.Finished? <==> Disposes(effect)) && !next.value.Requeueing?
            && !effect.Fetch? && (effect.Sample? ==> effect == Sample(false)) && (Disposes(effect) ==> effect.landed)
            && (Closing(a.phase) ==> Closing(next.value) && (Disposes(effect) ==> effect.Delete? || effect.Archive?))
  {
    hide Backoff.Delay, CompletedFrom;
  }

  ghost predicate OnlyMoved(s: State, t: State, k: nat) {
    && t.now == s.now && t.sent == s.sent && |t.attempts| == |s.attempts| && k < |s.attempts|
    && t.attempts[k].id == s.attempts[k].id
    && forall j :: 0 <= j < |s.attempts| && j != k ==> t.attempts[j] == s.attempts[j]
  }

  lemma OneEffect(setup: Setup, budget: Budget, s: State, k: nat) returns (t: State)
    requires Steady(setup, budget, s) && k < |s.attempts| && Live(s.attempts[k])
    ensures var effect := NextEffect(setup.service, s.attempts[k]);
            && CanAct(setup, s, k, effect)
            && t == Do(setup, s, Act(k, effect)) && Leads(setup, budget, s, [Act(k, effect)],
                       t) && Steady(setup, budget, t)
            && OnlyMoved(s, t, k) && Rank(t.attempts[k].phase) < Rank(s.attempts[k].phase)
            && (Closing(s.attempts[k].phase) ==> Closing(t.attempts[k].phase))
            && (Disposes(effect) <==> t.attempts[k].phase.Finished?)
  {
    var effect := NextEffect(setup.service, s.attempts[k]);
    NextEffectWorks(setup.service, s.attempts[k]);
    t := ActAt(setup, s, k, effect);
    StaysTimely(setup, budget, s, t, k);
    hide Sound, Timely, Next, NextEffect, Leads, Do, Closing;
    LeadsByOne(setup, budget, s, Act(k, effect));
  }

  lemma ActAt(setup: Setup, s: State, k: nat, effect: Effect) returns (t: State)
    requires Quiet(s) && k < |s.attempts| && Next(setup.service, s.attempts[k].readCount,
                   s.attempts[k].phase, effect).Some?
    requires !effect.Fetch? && (effect.Sample? ==> effect == Sample(false))
    ensures CanAct(setup, s, k, effect) && t == Do(setup, s, Act(k, effect)) && OnlyMoved(s, t, k)
    ensures Some(t.attempts[k].phase) == Next(setup.service, s.attempts[k].readCount, s.attempts[k].phase, effect)
    ensures t.attempts[k].readAt == s.attempts[k].readAt && !t.attempts[k].crashed
  {
    TouchedExtends(s, k, effect);
    hide Next, Touched;
    t := Do(setup, s, Act(k, effect));
  }

  /** Leaving the handler only ever moves a deadline later. */
  lemma StaysTimely(setup: Setup, budget: Budget, s: State, t: State, k: nat)
    requires Timely(setup.service, budget, s) && OnlyMoved(s, t, k)
    requires Live(s.attempts[k]) && t.attempts[k].readAt == s.attempts[k].readAt
    requires !InHandler(t.attempts[k].phase) && !t.attempts[k].phase.Requeueing?
    requires !s.attempts[k].phase.Requeueing? || t.attempts[k].phase.Finished?
    ensures Timely(setup.service, budget, t)
  {
    assert s.now <= Deadline(setup.service, budget, s.attempts[k]);
  }

  /** Any live attempt can come to its end at once. */
  lemma {:induction false} Finish(setup: Setup, budget: Budget, s: State, k: nat) returns (moves: seq<Move>, t: State)
    requires Steady(setup, budget, s) && k < |s.attempts|
    ensures Leads(setup, budget, s, moves, t) && Steady(setup, budget, t) && OnlyMoved(s, t, k) && !Live(t.attempts[k])
    decreases Rank(s.attempts[k].phase)
  {
    hide Steady, Leads, NextEffect, Rank, CanAct, Do;
    if Live(s.attempts[k]) {
      var u := OneEffect(setup, budget, s, k);
      var more;
      more, t := Finish(setup, budget, u, k);
      LeadsOn(setup, budget, s, [Act(k, NextEffect(setup.service, s.attempts[k]))], u, more, t);
      moves := [Act(k, NextEffect(setup.service, s.attempts[k]))] + more;
    } else {
      LeadsNowhere(setup, budget, s);
      moves, t := [], s;
    }
  }

  /** ... and so can the first n of them. */
  lemma {:induction false} FinishAll(setup: Setup, budget: Budget, s: State, n: nat) returns (moves: seq<Move>, t: State)
    requires Steady(setup, budget, s) && n <= |s.attempts|
    ensures Leads(setup, budget, s, moves, t) && Steady(setup, budget, t)
    ensures t.sent == s.sent && |t.attempts| == |s.attempts|
    ensures forall j :: 0 <= j < n ==> !Live(t.attempts[j])
    decreases n
  {
    hide Steady, Leads, Live;
    if n == 0 {
      LeadsNowhere(setup, budget, s);
      moves, t := [], s;
    } else {
      var first, u := FinishAll(setup, budget, s, n - 1);
      var more;
      more, t := Finish(setup, budget, u, n - 1);
      LeadsOn(setup, budget, s, first, u, more, t);
      moves := first + more;
    }
  }

  /** A closing attempt takes its row with it. */
  lemma {:induction false} CloseOut(setup: Setup, budget: Budget, s: State, k: nat) returns (moves: seq<Move>, t: State)
    requires Steady(setup, budget, s) && k < |s.attempts| && Live(s.attempts[k]) && Closing(s.attempts[k].phase)
    ensures Leads(setup, budget, s, moves, t) && Steady(setup, budget, t)
    ensures t.sent == s.sent && s.attempts[k].id !in t.queue
    decreases Rank(s.attempts[k].phase)
  {
    hide Steady, Leads, NextEffect, Rank, Closing, CanAct, Do;
    var effect := NextEffect(setup.service, s.attempts[k]);
    t := OneEffect(setup, budget, s, k);
    moves := [Act(k, effect)];
    if Disposes(effect) {
      ClosingRemoves(setup, budget, s, k);
    } else {
      StillQuiet(setup, budget, t, k);
      var u, more := t, [];
      more, t := CloseOut(setup, budget, u, k);
      LeadsOn(setup, budget, s, moves, u, more, t);
      moves := moves + more;
    }
  }

  lemma StillQuiet(setup: Setup, budget: Budget, s: State, k: nat)
    requires Steady(setup, budget, s) && k < |s.attempts|
    ensures !s.attempts[k].crashed
  {
    hide Sound, Timely;
  }

  lemma ClosingRemoves(setup: Setup, budget: Budget, s: State, k: nat)
    requires Steady(setup, budget, s) && k < |s.attempts| && Live(s.attempts[k]) && Closing(s.attempts[k].phase)
    requires var effect := NextEffect(setup.service, s.attempts[k]); Disposes(effect) && CanAct(setup, s, k, effect)
    ensures s.attempts[k].id !in Do(setup, s, Act(k, NextEffect(setup.service, s.attempts[k]))).queue
  {
    var effect := NextEffect(setup.service, s.attempts[k]);
    NextEffectWorks(setup.service, s.attempts[k]);
    TouchedRemoves(s, k, effect);
    hide Next, NextEffect, Touched, Steady;
  }

  // ----- a way out -----

  lemma WaitAndRead(setup: Setup, budget: Budget, s: State, id: nat) returns (moves: seq<Move>, t: State)
    requires Steady(setup, budget, s) && id in s.queue && id < |s.sent|
    requires forall k :: 0 <= k < |s.attempts| ==> !Live(s.attempts[k])
    ensures Leads(setup, budget, s, moves, t) && Steady(setup, budget, t)
    ensures t.sent == s.sent && |t.attempts| == |s.attempts| + 1
    ensures t.attempts[|s.attempts|].id == id && t.attempts[|s.attempts|].phase == Start(setup.service, s.sent[id])
    ensures !t.attempts[|s.attempts|].crashed
  {
    assert |s.readCounts| == |s.sent|;
    var wait := if s.queue[id].visibleAt <= s.now then 0 else s.queue[id].visibleAt - s.now;
    var u := Do(setup, s, Tick(wait));
    LeadsByOne(setup, budget, s, Tick(wait));
    ReadTimely(setup, budget, u, id);
    LeadsByOne(setup, budget, u, Read(id));
    t := Do(setup, u, Read(id));
    LeadsOn(setup, budget, s, [Tick(wait)], u, [Read(id)], t);
    moves := [Tick(wait)] + [Read(id)];
    hide Sound, Leads, Quiet, Timely, Start;
  }

  lemma ReadTimely(setup: Setup, budget: Budget, s: State, id: nat)
    requires Visible(s, id) && forall k :: 0 <= k < |s.attempts| ==> !Live(s.attempts[k])
    ensures Timely(setup.service, budget, Do(setup, s, Read(id)))
  {
    hide Start;
  }

  lemma AlwaysSteady(setup: Setup, budget: Budget, moves: seq<Move>)
    requires CalmReach(setup, budget, moves).Some?
    ensures Steady(setup, budget, CalmReach(setup, budget, moves).value)
  {
    CalmRunsAreTimely(setup, budget, moves);
    TimelyRunsAreRuns(setup, budget, moves);
    AlwaysSound(setup, moves);
    var step := CalmMoves(setup, budget);
    InitiallyLeased(setup, budget);
    assert Quiet(Initial(setup));
    hide Sound, Quiet, Timely, Enabled, Do, Calm;
    forall s, move | Quiet(s) && Timely(setup.service, budget, s) && step(s, move).Some?
      ensures Quiet(step(s, move).value) && Timely(setup.service, budget, step(s, move).value) {
      QuietKept(setup, s, move);
    }
    RunKeeps(step, s => Quiet(s) && Timely(setup.service, budget, s), Initial(setup), moves);
  }

  lemma WayOut(setup: Setup, budget: Budget, s: State, id: nat) returns (moves: seq<Move>, t: State)
    requires Steady(setup, budget, s) && id < |s.sent|
    ensures Leads(setup, budget, s, moves, t) && Steady(setup, budget, t) && t.sent == s.sent && id !in t.queue
  {
    hide Steady, Leads;
    moves, t := FinishAll(setup, budget, s, |s.attempts|);
    if id in t.queue {
      var u, v := t, t;
      var read, more;
      read, v := WaitAndRead(setup, budget, u, id);
      LeadsOn(setup, budget, s, moves, u, read, v);
      moves := moves + read;
      StartIsEarly(setup.service, u.sent[id]);
      hide Start;
      more, t := CloseOut(setup, budget, v, |u.attempts|);
      LeadsOn(setup, budget, s, moves, v, more, t);
      moves := moves + more;
    }
  }

  /** However far a calm run has come, it can go on so that the command is deleted or archived. */
  lemma NeverStuck(setup: Setup, budget: Budget, moves: seq<Move>, id: nat) returns (more: seq<Move>)
    requires CalmReach(setup, budget, moves).Some? && id < |CalmReach(setup, budget, moves).value.sent|
    ensures CalmReach(setup, budget, moves + more).Some?
    ensures var t := CalmReach(setup, budget, moves + more).value; id in t.deleted || id in t.archived
  {
    AlwaysSteady(setup, budget, moves);
    var s := CalmReach(setup, budget, moves).value;
    var t;
    more, t := WayOut(setup, budget, s, id);
    assert Placed(t);
    hide Steady, CalmMoves, Initial;
    RunConcat(CalmMoves(setup, budget), Initial(setup), moves, more);
  }
}
