/** Under which ids the results of one command are queued. */
module ClusterIds {
  import opened Wrappers
  import opened Strings
  import opened Errors
  import opened Events
  import opened Delivery
  import opened Cluster
  import opened ClusterSafety
  import opened ClusterLaws
  import opened ClusterTruth
  import opened ClusterDisturbed

  /** In every run, the results of one message with this command have one id. */
  ghost predicate OneId(service: Service, command: Command) {
    forall store, moves, i, j :: !TwoIds(service, command, store, moves, i, j)
  }

  /** Two results of one message with this command, queued under different ids. */
  ghost predicate TwoIds(service: Service, command: Command, store: map<string, Bytes>, moves: seq<Move>,
                         i: nat, j: nat) {
    var reached := Reach(Setup(service, store), moves);
    && reached.Some?
    && ResultOf(reached.value, command, i) && ResultOf(reached.value, command, j)
    && reached.value.attempts[reached.value.results[i].origin].id
        == reached.value.attempts[reached.value.results[j].origin].id
    && JobIdOf(reached.value.results[i].outcome) != JobIdOf(reached.value.results[j].outcome)
  }

  ghost predicate ResultOf(s: State, command: Command, i: nat) {
    && i < |s.results| && s.results[i].origin < |s.attempts|
    && s.attempts[s.results[i].origin].id < |s.sent| && s.sent[s.attempts[s.results[i].origin].id] == command
  }

  /** An accepted job whose id has white space around it. */
  predicate Padded(service: Service, command: Command) {
    var phase := Start(service, command);
    phase.Working? && TrimSpace(phase.job.jobId) != phase.job.jobId
  }

  /**
   All results of a command are queued under one id, in all runs, exactly when it
   is not an accepted job with a padded id: the publisher uses the id in the event,
   which is trimmed in a completion and untouched in a failure.
   */
  lemma OneIdExactly(service: Service, command: Command)
    ensures OneId(service, command) <==> !Padded(service, command)
  {
    hide Reach, Padded;
    if Padded(service, command) {
      var store, moves := FailureThenCompletion(service, command);
      assert !OneId(service, command);
    } else {
      forall store, moves, i, j ensures !TwoIds(service, command, store, moves, i, j) {
        NeverTwoIds(service, command, store, moves, i, j);
      }
    }
  }

  lemma NeverTwoIds(service: Service, command: Command, store: map<string, Bytes>, moves: seq<Move>, i: nat, j: nat)
    requires !Padded(service, command)
    ensures !TwoIds(service, command, store, moves, i, j)
  {
    var setup := Setup(service, store);
    hide Reach, ResultOf, Padded;
    if Reach(setup, moves).Some? {
      var s := Reach(setup, moves).value;
      AlwaysSound(setup, moves);
      if ResultOf(s, command, i) && ResultOf(s, command, j) {
        ResultsThere(s, command, i);
        ResultsThere(s, command, j);
        OneIdAt(setup, s, command, i);
        OneIdAt(setup, s, command, j);
      }
    }
  }

  lemma ResultsThere(s: State, command: Command, i: nat)
    requires ResultOf(s, command, i)
    ensures i < |s.results| && s.results[i].origin < |s.attempts|
  {
  }

  lemma OneIdAt(setup: Setup, s: State, command: Command, i: nat)
    requires Sound(setup, s) && ResultOf(s, command, i) && !Padded(setup.service, command)
    ensures JobOf(setup.service, command).Some? && JobIdOf(s.results[i].outcome) == JobOf(setup.service,
                  command).value.jobId
  {
    ResultAnswers(setup, s, i);
    StartBelongs(setup.service, command);
    if s.results[i].outcome.Completed? {
      CompletedIsAccepted(setup, s, i);
    }
    hide Start, JobOf, TrimSpace, Sound;
  }

  /** Only accepted jobs are completed. */
  lemma CompletedIsAccepted(setup: Setup, s: State, i: nat)
    requires Sound(setup, s) && i < |s.results| && s.results[i].outcome.Completed?
    ensures s.results[i].origin < |s.attempts| && s.attempts[s.results[i].origin].id < |s.sent|
    ensures Start(setup.service, s.sent[s.attempts[s.results[i].origin].id]).Working?
  {
    var a, outcome := s.attempts[s.results[i].origin], s.results[i].outcome;
    assert AttemptOk(setup, s, a) && Landed(a, outcome);
    var n :| 0 <= n < |a.effects| && a.effects[n].Enqueue? && a.effects[n].outcome == outcome;
    hide Sound, After, MonotoneSamples, Start;
    var source, output := CompletedIsStored(setup.service, a.readCount, s.sent[a.id], a.effects, n);
  }

  /** The failure lands but is reported lost; the command is delivered again and completed. */
  lemma FailureThenCompletion(service: Service, command: Command) returns (store: map<string, Bytes>, moves: seq<Move>)
    requires Padded(service, command)
    ensures TwoIds(service, command, store, moves, 0, 1)
  {
    store := map[Start(service, command).spec.sourceKey := []];
    var setup := Setup(service, store);
    moves := LostFailure(setup, command);
    hide ReachWith, Start, Rested, CompletedFrom, Reach, TwoIds, Padded;
    moves := Deliver(setup, {command}, moves, 0);
    RunsWithAreRuns(setup, {command}, moves);
    BothResults(service, command, store, moves);
  }

  lemma BothResults(service: Service, command: Command, store: map<string, Bytes>, moves: seq<Move>)
    requires Padded(service, command) && Reach(Setup(service, store), moves).Some?
    requires var s, phase := Reach(Setup(service, store), moves).value, Start(service, command);
             && s.sent == [command] && |s.attempts| == 2 && s.attempts[0].id == s.attempts[1].id == 0
             && s.results == [Posted(0, Failed(NewFailEvent(phase.job, Internal)))]
                             + [Posted(1, CompletedFrom(service.tools, phase.job, phase.spec, []))]
    ensures TwoIds(service, command, store, moves, 0, 1)
  {
    hide Reach, Start, CompletedFrom, TrimSpace;
    IdsOf(service, command, []);
    var s := Reach(Setup(service, store), moves).value;
    assert ResultOf(s, command, 0) && ResultOf(s, command, 1);
  }

  lemma IdsOf(service: Service, command: Command, source: Bytes)
    requires Start(service, command).Working?
    ensures var phase := Start(service, command);
            && JobIdOf(Failed(NewFailEvent(phase.job, Internal))) == phase.job.jobId
            && JobIdOf(CompletedFrom(service.tools, phase.job, phase.spec, source)) == TrimSpace(phase.job.jobId)
  {
    SpecJobId(service, command);
    hide Start, TrimSpace;
  }

  /** One delivery that ends with a failure nobody acknowledged, and the end of its lease. */
  lemma LostFailure(setup: Setup, command: Command) returns (moves: seq<Move>)
    requires Start(setup.service, command).Working?
    ensures ReachWith(setup, {command}, moves).Some?
    ensures var s := ReachWith(setup, {command}, moves).value;
            && Rested(s) && s.sent == [command] && s.store == setup.store && |s.attempts| == 1 && s.attempts[0].id == 0
            && s.results == [Posted(0, Failed(NewFailEvent(Start(setup.service, command).job, Internal)))]
  {
    var commands := {command};
    var phase := Start(setup.service, command);
    var outcome := Failed(NewFailEvent(phase.job, Internal));
    var lost := Enqueue(outcome, true, false);
    assert ReachWith(setup, commands, []) == Some(Initial(setup));
    hide ReachWith, Start;
    SendStep(setup, commands, [], command);
    moves := [] + [Send(command)];
    var s := ReachWith(setup, commands, moves).value;
    hide Enabled, Do, Underway, Rested, Lease;
    ReadStep(setup, s, 0);
    WithSnoc(setup, commands, moves, Read(0));
    moves := moves + [Read(0)];
    LosesFailure(setup.service, phase);
    ActStep(setup, s, ReachWith(setup, commands, moves).value, 0, phase, Returned(Retryable), s.store, s.results, lost);
    WithSnoc(setup, commands, moves, Act(0, lost));
    moves := moves + [Act(0, lost)];
    RestStep(setup, s, ReachWith(setup, commands, moves).value, 0, Returned(Retryable), s.store,
             s.results + [Posted(0, outcome)]);
    CanTick(setup, ReachWith(setup, commands, moves).value, Lease(setup.service));
    WithSnoc(setup, commands, moves, Tick(Lease(setup.service)));
    moves := moves + [Tick(Lease(setup.service))];
    UnderwayParts(setup, s, ReachWith(setup, commands, moves).value, 0, Returned(Retryable), s.store,
                  s.results + [Posted(0, outcome)]);
  }

  lemma LosesFailure(service: Service, phase: Phase)
    requires phase.Working?
    ensures forall readCount: nat ::
              Next(service, readCount, phase, Enqueue(Failed(NewFailEvent(phase.job, Internal)), true, false))
              == Some(Returned(Retryable))
  {
  }

  lemma UnderwayParts(setup: Setup, before: State, s: State, id: nat, phase: Phase,
                      store: map<string, Bytes>, results: seq<Posted>)
    requires Underway(setup, before, s, id, phase, store, results)
    ensures s.sent == before.sent && s.store == store && s.results == results
    ensures |s.attempts| == |before.attempts| + 1 && s.attempts[|before.attempts|].id == id
  {
  }
}
