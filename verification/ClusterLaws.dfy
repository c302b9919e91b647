/** Safety over whole runs: what is never lost, never done twice and never done too often. */
module ClusterLaws {
  import opened Strings
  import opened Events
  import opened Delivery
  import opened Cluster
  import opened ClusterSafety
  import opened Folds
  import Backoff

  lemma OkLanded(service: Service, readCount: nat, command: Command, effects: seq<Effect>, n: nat)
    requires After(service, readCount, command, effects).Some?
    requires n < |effects| && effects[n].Enqueue?
    ensures effects[n].ok ==> effects[n].landed
  {
    var phase := PhaseOf(service, readCount, command, effects, n);
    hide After, Start, MayPublish;
  }

  /** The result of the job of a command, somewhere in the result queue. */
  ghost predicate Answered(setup: Setup, s: State, id: nat, i: nat)
    requires id < |s.sent|
  {
    && i < |s.results| && s.results[i].origin < |s.attempts|
    && s.attempts[s.results[i].origin].id == id
    && AnswersFor(setup.service, s.sent[id], s.results[i].outcome)
  }

  /**
   No delete without a result: whatever crashes, expires, is cancelled or fails,
   a command that was deleted has a result for its job in the result queue. Unless
   the job id is padded with white space, the result carries just that id.
   */
  lemma NoDeleteWithoutResult(setup: Setup, moves: seq<Move>, id: nat) returns (i: nat)
    requires Reach(setup, moves).Some? && id in Reach(setup, moves).value.deleted
    ensures var s := Reach(setup, moves).value;
            && id < |s.sent| && Answered(setup, s, id, i)
            && var job := JobOf(setup.service, s.sent[id]).value;
            TrimSpace(job.jobId) == job.jobId ==> JobIdOf(s.results[i].outcome) == job.jobId
  {
    AlwaysSound(setup, moves);
    var s := Reach(setup, moves).value;
    hide Reach;
    i := DeletedIsAnswered(setup, s, id);
  }

  /** Every result in the result queue answers the command it was posted for. */
  lemma EveryResultAnswers(setup: Setup, moves: seq<Move>, i: nat)
    requires Reach(setup, moves).Some? && i < |Reach(setup, moves).value.results|
    ensures var s := Reach(setup, moves).value;
            var result := s.results[i];
            && result.origin < |s.attempts| && s.attempts[result.origin].id < |s.sent|
            && AnswersFor(setup.service, s.sent[s.attempts[result.origin].id], result.outcome)
  {
    AlwaysSound(setup, moves);
    hide Reach;
    ResultAnswers(setup, Reach(setup, moves).value, i);
  }

  lemma ResultAnswers(setup: Setup, s: State, i: nat)
    requires Sound(setup, s) && i < |s.results|
    ensures s.results[i].origin < |s.attempts| && s.attempts[s.results[i].origin].id < |s.sent|
    ensures AnswersFor(setup.service, s.sent[s.attempts[s.results[i].origin].id], s.results[i].outcome)
  {
    var a, outcome := s.attempts[s.results[i].origin], s.results[i].outcome;
    assert AttemptOk(setup, s, a) && Landed(a, outcome);
    var n :| 0 <= n < |a.effects| && a.effects[n].Enqueue? && a.effects[n].outcome == outcome;
    hide Sound, After, MonotoneSamples, AnswersFor;
    ResultsAnswer(setup.service, a.readCount, s.sent[a.id], a.effects, n);
  }

  lemma DeletedIsAnswered(setup: Setup, s: State, id: nat) returns (i: nat)
    requires Sound(setup, s) && id in s.deleted
    ensures id < |s.sent| && Answered(setup, s, id, i)
  {
    var k := s.deleted[id];
    var a := s.attempts[k];
    assert AttemptOk(setup, s, a) && Deleted(a);
    var outcome := DeletingAttempt(setup.service, a, s.sent[id]);
    i :| 0 <= i < |s.results| && s.results[i] == Posted(k, outcome);
    hide Sound, AnswersFor, Landed;
  }

  lemma DeletingAttempt(service: Service, a: Attempt, command: Command) returns (outcome: Outcome)
    requires After(service, a.readCount, command, a.effects).Some? && Deleted(a)
    ensures Landed(a, outcome) && AnswersFor(service, command, outcome)
  {
    hide After, AnswersFor;
    var n :| 0 <= n < |a.effects| && a.effects[n].Delete?;
    var m := DeletedAfterResult(service, a.readCount, command, a.effects, n);
    OkLanded(service, a.readCount, command, a.effects, m);
    outcome := a.effects[m].outcome;
    assert a.effects[m] == Enqueue(outcome, true, true);
  }

  /** Conservation: at all times a command is queued, deleted or archived, and only one of these. */
  lemma Conservation(setup: Setup, moves: seq<Move>, id: nat)
    requires Reach(setup, moves).Some?
    ensures var s := Reach(setup, moves).value;
            && (id < |s.sent| <==> id in s.queue || id in s.deleted || id in s.archived)
            && !(id in s.queue && id in s.deleted) && !(id in s.queue && id in s.archived)
            && !(id in s.deleted && id in s.archived)
  {
    AlwaysSound(setup, moves);
    hide Reach, AttemptsOk, ReadsClimb, ResultsLanded, Removed;
  }

  /** An attempt beyond the retry limit, with a publish that was reported failed. */
  ghost predicate Spent(setup: Setup, s: State, id: nat, a: Attempt) {
    && a.id == id < |s.readCounts| && setup.service.config.retryLimit < a.readCount <= s.readCounts[id]
    && exists n :: 0 <= n < |a.effects| && a.effects[n].Enqueue? && !a.effects[n].ok
  }

  /** A well-formed command is archived only after more reads than the retry limit, by an attempt that could not publish. */
  lemma ArchivedOnlyWhenSpent(setup: Setup, moves: seq<Move>, id: nat)
    requires Reach(setup, moves).Some? && id in Reach(setup, moves).value.archived
    ensures var s := Reach(setup, moves).value;
            && id < |s.sent| && s.archived[id] < |s.attempts|
            && (JobOf(setup.service, s.sent[id]).Some? ==> Spent(setup, s, id, s.attempts[s.archived[id]]))
  {
    AlwaysSound(setup, moves);
    hide Reach;
    ArchivedIsSpent(setup, Reach(setup, moves).value, id);
  }

  lemma ArchivedIsSpent(setup: Setup, s: State, id: nat)
    requires Sound(setup, s) && id in s.archived
    ensures && id < |s.sent| && s.archived[id] < |s.attempts|
            && (JobOf(setup.service, s.sent[id]).Some? ==> Spent(setup, s, id, s.attempts[s.archived[id]]))
  {
    var a := s.attempts[s.archived[id]];
    assert AttemptOk(setup, s, a) && Archived(a);
    hide Sound;
    if JobOf(setup.service, s.sent[id]).Some? {
      ArchivingAttempt(setup.service, a, s.sent[id]);
    }
  }

  lemma ArchivingAttempt(service: Service, a: Attempt, command: Command)
    requires After(service, a.readCount, command, a.effects).Some? && MonotoneSamples(a.effects)
    requires JobOf(service, command).Some? && Archived(a)
    ensures a.readCount > service.config.retryLimit
    ensures exists n :: 0 <= n < |a.effects| && a.effects[n].Enqueue? && !a.effects[n].ok
  {
    hide After, MonotoneSamples, JobOf;
    var n :| 0 <= n < |a.effects| && a.effects[n].Archive?;
    ArchivedWhenSpent(service, a.readCount, command, a.effects, n);
    var m :| 0 <= m < n && a.effects[..n][m].Enqueue? && !a.effects[..n][m].ok;
    assert a.effects[m].Enqueue? && !a.effects[m].ok;
  }

  // ----- which disposition -----

  /** In every reachable state, every disposition is the one that its attempt's effects call for. */
  lemma EveryDispositionDecided(setup: Setup, moves: seq<Move>, k: nat, n: nat)
    requires Reach(setup, moves).Some? && k < |Reach(setup, moves).value.attempts|
    requires n < |Reach(setup, moves).value.attempts[k].effects|
    requires Disposes(Reach(setup, moves).value.attempts[k].effects[n])
    ensures var s := Reach(setup, moves).value;
            var a := s.attempts[k];
            && a.id < |s.sent| && n == |a.effects| - 1
            && DisposedExactly(setup.service, a.readCount, s.sent[a.id], a.effects)
  {
    AlwaysSound(setup, moves);
    hide Reach, Sound, DisposedExactly;
    AttemptDecided(setup, Reach(setup, moves).value, k, n);
  }

  lemma AttemptDecided(setup: Setup, s: State, k: nat, n: nat)
    requires Sound(setup, s) && k < |s.attempts|
    requires n < |s.attempts[k].effects| && Disposes(s.attempts[k].effects[n])
    ensures var a := s.attempts[k];
            && a.id < |s.sent| && n == |a.effects| - 1
            && DisposedExactly(setup.service, a.readCount, s.sent[a.id], a.effects)
  {
    var a := s.attempts[k];
    assert AttemptOk(setup, s, a);
    hide Sound, After, MonotoneSamples, DisposedExactly;
    DispositionExactly(setup.service, a.readCount, s.sent[a.id], a.effects, n);
  }

  /** These effects leave the message where it is, to be read again at once. */
  ghost predicate GivesBack(effects: seq<Effect>) {
    forall n :: 0 <= n < |effects| && Disposes(effects[n]) ==> effects[n].SetVisibility? && effects[n].delay == 0
  }

  /**
   In every reachable state, an attempt that saw its context cancelled has not
   deleted, archived or delayed its message: it gives it back at once, whether its
   result was acknowledged, reported lost or never attempted.
   */
  lemma CancelledGivesBack(setup: Setup, moves: seq<Move>, k: nat)
    requires Reach(setup, moves).Some? && k < |Reach(setup, moves).value.attempts|
    requires Sample(true) in Reach(setup, moves).value.attempts[k].effects
    ensures var s := Reach(setup, moves).value;
            && GivesBack(s.attempts[k].effects)
            && (forall id :: id in s.deleted ==> s.deleted[id] != k)
            && (forall id :: id in s.archived ==> s.archived[id] != k)
  {
    AlwaysSound(setup, moves);
    hide Reach, Sound, GivesBack;
    CancelledAttempt(setup, Reach(setup, moves).value, k);
    RemovedByItsAttempt(setup, Reach(setup, moves).value, k);
  }

  lemma CancelledAttempt(setup: Setup, s: State, k: nat)
    requires Sound(setup, s) && k < |s.attempts| && Sample(true) in s.attempts[k].effects
    ensures GivesBack(s.attempts[k].effects)
  {
    var effects := s.attempts[k].effects;
    hide Sound;
    forall n: nat | n < |effects| && Disposes(effects[n]) ensures effects[n].SetVisibility? && effects[n].delay == 0 {
      CancelledAt(setup, s, k, n);
    }
  }

  lemma CancelledAt(setup: Setup, s: State, k: nat, n: nat)
    requires Sound(setup, s) && k < |s.attempts| && Sample(true) in s.attempts[k].effects
    requires n < |s.attempts[k].effects| && Disposes(s.attempts[k].effects[n])
    ensures s.attempts[k].effects[n].SetVisibility? && s.attempts[k].effects[n].delay == 0
  {
    hide *;
    AttemptDecided(setup, s, k, n);
    var a := s.attempts[k];
    CancelledDisposal(setup.service, a.readCount, s.sent[a.id], a.effects);
  }

  lemma CancelledDisposal(service: Service, readCount: nat, command: Command, effects: seq<Effect>)
    requires DisposedExactly(service, readCount, command, effects) && Sample(true) in effects
    ensures effects[|effects| - 1].SetVisibility? && effects[|effects| - 1].delay == 0
  {
    hide JobOf, Backoff.Delay;
  }

  lemma RemovedByItsAttempt(setup: Setup, s: State, k: nat)
    requires Sound(setup, s) && k < |s.attempts| && GivesBack(s.attempts[k].effects)
    ensures forall id :: id in s.deleted ==> s.deleted[id] != k
    ensures forall id :: id in s.archived ==> s.archived[id] != k
  {
    assert Removed(s);
    hide Sound;
  }

  // ----- counting by reads -----

  /** Results and retries come from different attempts each. */
  ghost predicate OncePerAttempt(origins: seq<nat>) {
    forall i, j :: 0 <= i < j < |origins| ==> origins[i] != origins[j]
  }

  predicate Known(s: State, origins: seq<nat>) {
    forall i :: 0 <= i < |origins| ==> origins[i] < |s.attempts|
  }

  function ResultOrigins(s: State): seq<nat> {
    seq(|s.results|, i requires 0 <= i < |s.results| => s.results[i].origin)
  }

  function RetryOrigins(s: State): seq<nat> {
    seq(|s.retries|, i requires 0 <= i < |s.retries| => s.retries[i].origin)
  }

  /** The reads of one command among these attempts. */
  function ReadsOf(s: State, origins: seq<nat>, id: nat): seq<nat>
    requires Known(s, origins)
  {
    if origins == [] then []
    else
      var front, last := origins[..|origins| - 1], s.attempts[origins[|origins| - 1]];
      ReadsOf(s, front, id) + (if last.id == id then [last.readCount] else [])
  }

  lemma {:induction false} OtherReads(s: State, origins: seq<nat>, id: nat, k: nat)
    requires ReadsClimb(s) && Known(s, origins)
    requires k < |s.attempts| && s.attempts[k].id == id && forall i :: 0 <= i < |origins| ==> origins[i] != k
    ensures s.attempts[k].readCount !in ReadsOf(s, origins, id)
  {
    if origins != [] {
      OtherReads(s, origins[..|origins| - 1], id, k);
    }
  }

  lemma {:induction false} ReadsOfDistinct(s: State, origins: seq<nat>, id: nat)
    requires ReadsClimb(s) && OncePerAttempt(origins) && Known(s, origins)
    ensures Distinct(ReadsOf(s, origins, id))
  {
    if origins != [] {
      var front, last := origins[..|origins| - 1], origins[|origins| - 1];
      ReadsOfDistinct(s, front, id);
      if s.attempts[last].id == id {
        OtherReads(s, front, id, last);
      }
    }
  }

  ghost predicate Distinct(values: seq<nat>) {
    forall i, j :: 0 <= i < j < |values| ==> values[i] != values[j]
  }

  function Delays(readCounts: seq<nat>): int {
    if readCounts == [] then 0
    else Delays(readCounts[..|readCounts| - 1]) + Backoff.Delay(readCounts[|readCounts| - 1])
  }

  lemma {:induction false} DelaysWithout(values: seq<nat>, i: nat)
    requires i < |values|
    ensures Delays(values) == Delays(values[..i] + values[i + 1..]) + Backoff.Delay(values[i])
  {
    hide Backoff.Delay;
    var last := |values| - 1;
    if i == last {
      assert values[..i] + values[i + 1..] == values[..last];
    } else {
      var without := values[..i] + values[i + 1..];
      DelaysWithout(values[..last], i);
      assert without[..|without| - 1] == values[..last][..i] + values[..last][i + 1..];
      assert without[|without| - 1] == values[last];
    }
  }

  ghost predicate UpTo(values: seq<nat>, n: nat) {
    forall i :: 0 <= i < |values| ==> 1 <= values[i] <= n
  }

  /** Different read counts up to n: no more than n of them, and no more delay than one of each. */
  lemma {:induction false} DistinctUpTo(values: seq<nat>, n: nat)
    requires Distinct(values) && UpTo(values, n)
    ensures |values| <= n
    ensures Delays(values) <= Backoff.TotalDelay(n)
  {
    assert values != [] ==> values[0] <= n;
    if n > 0 {
      Backoff.DelayRange(n);
      hide Backoff.Delay, Distinct;
      if i: nat :| i < |values| && values[i] == n {
        DelaysWithout(values, i);
        DistinctWithout(values, i, n);
        DistinctUpTo(values[..i] + values[i + 1..], n - 1);
      } else {
        DistinctUpTo(values, n - 1);
      }
    }
  }

  lemma DistinctWithout(values: seq<nat>, i: nat, n: nat)
    requires i < |values| && values[i] == n >= 1 && Distinct(values) && UpTo(values, n)
    ensures Distinct(values[..i] + values[i + 1..]) && UpTo(values[..i] + values[i + 1..], n - 1)
  {
    var without := values[..i] + values[i + 1..];
    assert forall j :: 0 <= j < |without| ==> without[j] == values[if j < i then j else j + 1];
  }

  // ----- results and retries within the reads -----

  /** Each attempt posts at most one result. */
  ghost predicate PostsOnce(s: State) {
    Known(s, ResultOrigins(s)) && OncePerAttempt(ResultOrigins(s))
  }

  /** Each attempt asks for at most one delayed retry, as its last act, with the scheduled delay and within the limit. */
  ghost predicate RetriesOnce(setup: Setup, s: State) {
    && Known(s, RetryOrigins(s)) && OncePerAttempt(RetryOrigins(s))
    && forall i :: 0 <= i < |s.retries| ==> RetryOk(setup, s, s.retries[i])
  }

  ghost predicate RetryOk(setup: Setup, s: State, retry: Delayed) {
    && retry.origin < |s.attempts|
    && var a := s.attempts[retry.origin];
    && a.phase.Finished? && a.readCount <= setup.service.config.retryLimit
    && retry.delay == Backoff.Delay(a.readCount)
  }

  ghost predicate Frugal(setup: Setup, s: State) {
    PostsOnce(s) && RetriesOnce(setup, s)
  }

  lemma ActPostsOnce(setup: Setup, s: State, k: nat, effect: Effect)
    requires Sound(setup, s) && CanAct(setup, s, k, effect) && effect.Enqueue?
    ensures forall i :: 0 <= i < |s.results| ==> s.results[i].origin != k
  {
    var a := s.attempts[k];
    assert AttemptOk(setup, s, a);
    NothingEnqueued(setup.service, a.readCount, s.sent[a.id], a.effects, effect);
    assert ResultsLanded(s);
    hide Sound, AttemptOk, CanAct, CountEnqueues;
    forall i | 0 <= i < |s.results| ensures s.results[i].origin != k {
      LandedCounts(s.attempts[s.results[i].origin], s.results[i].outcome);
    }
  }

  lemma NothingEnqueued(service: Service, readCount: nat, command: Command, effects: seq<Effect>, effect: Effect)
    requires var phase := After(service, readCount, command, effects);
             phase.Some? && effect.Enqueue? && Next(service, readCount, phase.value, effect).Some?
    ensures CountEnqueues(effects) == 0
  {
    OneResultOneDisposition(service, readCount, command, effects);
    PublishingPhaseLeft(service, readCount, After(service, readCount, command, effects).value, effect);
    hide After, Next, JobOf, CountDispositions, CountEnqueues;
  }

  lemma LandedCounts(a: Attempt, outcome: Outcome)
    requires Landed(a, outcome)
    ensures CountEnqueues(a.effects) >= 1
  {
    var e :| e in a.effects && e.Enqueue?;
    NoEnqueue(a.effects, e);
  }

  lemma PublishingPhaseLeft(service: Service, readCount: nat, phase: Phase, effect: Effect)
    requires effect.Enqueue? && Next(service, readCount, phase, effect).Some?
    ensures PublishesLeft(phase) == 1
  {
  }

  lemma FrugalKept(setup: Setup, s: State, move: Move)
    requires Sound(setup, s) && Frugal(setup, s) && Enabled(setup, s, move)
    ensures Frugal(setup, Do(setup, s, move))
  {
    if move.Act? {
      ActFrugal(setup, s, move.k, move.effect);
    } else {
      OthersFrugal(setup, s, move);
    }
  }

  lemma OthersFrugal(setup: Setup, s: State, move: Move)
    requires Frugal(setup, s) && Enabled(setup, s, move) && !move.Act?
    ensures Frugal(setup, Do(setup, s, move))
  {
    var t := Do(setup, s, move);
    OthersLeave(setup, s, move);
    assert ResultOrigins(t) == ResultOrigins(s) && RetryOrigins(t) == RetryOrigins(s);
    assert forall i :: 0 <= i < |s.retries| ==> RetryOk(setup, s, s.retries[i]);
    hide Enabled, Do, OncePerAttempt, Backoff.Delay;
  }

  /** Only acts change results, retries or phases. */
  lemma OthersLeave(setup: Setup, s: State, move: Move)
    requires Enabled(setup, s, move) && !move.Act?
    ensures var t := Do(setup, s, move);
            && t.results == s.results && t.retries == s.retries && |s.attempts| <= |t.attempts|
            && forall k :: 0 <= k < |s.attempts| ==>
                 t.attempts[k].phase == s.attempts[k].phase && t.attempts[k].readCount == s.attempts[k].readCount
  {
    hide Start, Next, Lease;
  }

  lemma ActFrugal(setup: Setup, s: State, k: nat, effect: Effect)
    requires Sound(setup, s) && Frugal(setup, s) && CanAct(setup, s, k, effect)
    ensures Frugal(setup, Do(setup, s, Act(k, effect)))
  {
    if effect.Enqueue? {
      ActPostsOnce(setup, s, k, effect);
    }
    hide Sound, Do;
    ActResultsOnce(setup, s, k, effect);
    ActRetriesOnce(setup, s, k, effect);
  }

  lemma OnceSnoc(origins: seq<nat>, k: nat)
    requires OncePerAttempt(origins) && forall i :: 0 <= i < |origins| ==> origins[i] != k
    ensures OncePerAttempt(origins + [k])
  {
  }

  lemma ActResultsOnce(setup: Setup, s: State, k: nat, effect: Effect)
    requires PostsOnce(s) && CanAct(setup, s, k, effect)
    requires effect.Enqueue? ==> forall i :: 0 <= i < |s.results| ==> s.results[i].origin != k
    ensures PostsOnce(Do(setup, s, Act(k, effect)))
  {
    var t := Do(setup, s, Act(k, effect));
    TouchedParts(s, k, effect);
    TouchedExtends(s, k, effect);
    hide Next, Touched, OncePerAttempt;
    if effect.Enqueue? && effect.landed {
      OnceSnoc(ResultOrigins(s), k);
      assert ResultOrigins(t) == ResultOrigins(s) + [k];
    } else {
      assert ResultOrigins(t) == ResultOrigins(s);
    }
  }

  lemma ActRetriesOnce(setup: Setup, s: State, k: nat, effect: Effect)
    requires RetriesOnce(setup, s) && CanAct(setup, s, k, effect)
    ensures RetriesOnce(setup, Do(setup, s, Act(k, effect)))
  {
    var t := Do(setup, s, Act(k, effect));
    TouchedParts(s, k, effect);
    RetryPhase(setup.service, s.attempts[k].readCount, s.attempts[k].phase, effect);
    assert forall i :: 0 <= i < |s.retries| ==> RetryOk(setup, s, s.retries[i]) && s.retries[i].origin != k;
    forall i | 0 <= i < |s.retries| ensures RetryOk(setup, t, s.retries[i]) {
      EarlierRetryOk(setup, s, k, effect, s.retries[i]);
    }
    hide Next, Touched, OncePerAttempt, RetryOk;
    if effect.SetVisibility? && s.attempts[k].phase.Failing? {
      OnceSnoc(RetryOrigins(s), k);
      assert RetryOrigins(t) == RetryOrigins(s) + [k];
      NewRetryOk(setup, s, k, effect);
    } else {
      assert RetryOrigins(t) == RetryOrigins(s);
    }
  }

  lemma EarlierRetryOk(setup: Setup, s: State, k: nat, effect: Effect, retry: Delayed)
    requires CanAct(setup, s, k, effect) && RetryOk(setup, s, retry) && retry.origin != k
    ensures RetryOk(setup, Do(setup, s, Act(k, effect)), retry)
  {
    hide Next, Touched, Backoff.Delay;
  }

  lemma NewRetryOk(setup: Setup, s: State, k: nat, effect: Effect)
    requires CanAct(setup, s, k, effect) && effect.SetVisibility? && s.attempts[k].phase.Failing?
    ensures RetryOk(setup, Do(setup, s, Act(k, effect)), Delayed(k, effect.delay))
  {
    RetryPhase(setup.service, s.attempts[k].readCount, s.attempts[k].phase, effect);
    hide Next, Touched, Backoff.Delay;
  }

  lemma RetryPhase(service: Service, readCount: nat, phase: Phase, effect: Effect)
    requires Next(service, readCount, phase, effect).Some?
    ensures !phase.Finished?
    ensures effect.SetVisibility? ==> Next(service, readCount, phase, effect).value.Finished?
    ensures effect.SetVisibility? && phase.Failing? ==>
              readCount <= service.config.retryLimit && effect.delay == Backoff.Delay(readCount)
  {
    hide Backoff.Delay;
  }

  lemma AlwaysFrugal(setup: Setup, moves: seq<Move>)
    requires Reach(setup, moves).Some?
    ensures Sound(setup, Reach(setup, moves).value) && Frugal(setup, Reach(setup, moves).value)
  {
    InitiallySound(setup);
    hide Sound, Do, Enabled, Frugal;
    assert Frugal(setup, Initial(setup)) by {
      InitiallyFrugal(setup);
    }
    forall s, move | Sound(setup, s) && Frugal(setup, s) && Moves(setup)(s, move).Some?
      ensures Sound(setup, Moves(setup)(s, move).value) && Frugal(setup, Moves(setup)(s, move).value) {
      SoundKept(setup, s, move);
      FrugalKept(setup, s, move);
    }
    RunKeeps(Moves(setup), s => Sound(setup, s) && Frugal(setup, s), Initial(setup), moves);
  }

  lemma InitiallyFrugal(setup: Setup)
    ensures Frugal(setup, Initial(setup))
  {
  }

  /** Over any run, a command has no more results than reads. */
  lemma ResultsWithinReads(setup: Setup, moves: seq<Move>, id: nat)
    requires Reach(setup, moves).Some?
    ensures var s := Reach(setup, moves).value;
            id < |s.readCounts| ==> Known(s, ResultOrigins(s)) && |ReadsOf(s, ResultOrigins(s), id)| <= s.readCounts[id]
  {
    AlwaysFrugal(setup, moves);
    var s := Reach(setup, moves).value;
    hide Reach;
    if id < |s.readCounts| {
      ReadsOfDistinct(s, ResultOrigins(s), id);
      ReadsOfUpTo(setup, s, ResultOrigins(s), id, s.readCounts[id]);
      DistinctUpTo(ReadsOf(s, ResultOrigins(s), id), s.readCounts[id]);
    }
  }

  lemma {:induction false} ReadsOfUpTo(setup: Setup, s: State, origins: seq<nat>, id: nat, n: nat)
    requires AttemptsOk(setup, s) && Known(s, origins)
    requires forall i :: 0 <= i < |origins| && s.attempts[origins[i]].id == id ==> s.attempts[origins[i]].readCount <= n
    ensures UpTo(ReadsOf(s, origins, id), n)
  {
    hide After, MonotoneSamples;
    if origins != [] {
      assert AttemptOk(setup, s, s.attempts[origins[|origins| - 1]]);
      ReadsOfUpTo(setup, s, origins[..|origins| - 1], id, n);
    }
  }

  /**
   Over any run, however many crashes and shutdown requeues interleave, a command
   is retried with a delay at most as often as the retry limit says, and all its
   delays together stay under those of one uninterrupted series of retries.
   */
  lemma RetriesWithinLimit(setup: Setup, moves: seq<Move>, id: nat)
    requires Reach(setup, moves).Some?
    ensures var s := Reach(setup, moves).value;
            var limit := setup.service.config.retryLimit;
            && Known(s, RetryOrigins(s))
            && |ReadsOf(s, RetryOrigins(s), id)| <= limit
            && Delays(ReadsOf(s, RetryOrigins(s), id)) <= Backoff.TotalDelay(limit) <= 60 * limit
            && (limit == 3 ==> Delays(ReadsOf(s, RetryOrigins(s), id)) <= 35)
  {
    AlwaysFrugal(setup, moves);
    var s := Reach(setup, moves).value;
    var limit := setup.service.config.retryLimit;
    hide Reach, Backoff.Delay, Backoff.TotalDelay;
    ReadsOfDistinct(s, RetryOrigins(s), id);
    ReadsOfUpTo(setup, s, RetryOrigins(s), id, limit);
    DistinctUpTo(ReadsOf(s, RetryOrigins(s), id), limit);
    Backoff.TotalDelayBound(limit);
  }
}
