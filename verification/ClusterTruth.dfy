/** When completed results stay true, whatever is delivered again. */
module ClusterTruth {
  import opened Wrappers
  import opened Strings
  import opened Options
  import opened Validation
  import opened Events
  import opened Delivery
  import opened Cluster
  import opened ClusterSafety
  import opened Folds

  /** The work that a command asks for, if it is accepted. */
  function SpecOf(service: Service, command: Command): Option<Spec> {
    var phase := Start(service, command);
    if phase.Working? then Some(phase.spec) else None
  }

  /** The first work overwrites what the second reads, or makes another object under the same key. */
  predicate Clash(a: Spec, b: Spec) {
    || a.outputKey == b.sourceKey
    || (a.outputKey == b.outputKey && (a.sourceKey != b.sourceKey || a.options != b.options))
  }

  /** No accepted command clashes with another or with itself. */
  ghost predicate Undisturbed(service: Service, commands: set<Command>) {
    forall a, b :: a in commands && b in commands && SpecOf(service, a).Some? && SpecOf(service, b).Some? ==>
      !Clash(SpecOf(service, a).value, SpecOf(service, b).value)
  }

  /** Runs that send each of these commands at most once, and no others. */
  ghost function MovesWith(setup: Setup, commands: set<Command>): (State, Move) -> Option<State> {
    (s, move) => if Enabled(setup, s, move) && (move.Send? ==> move.command in commands && move.command !in s.sent)
                 then Some(Do(setup, s, move)) else None
  }

  ghost function ReachWith(setup: Setup, commands: set<Command>, moves: seq<Move>): Option<State> {
    Run(MovesWith(setup, commands), Initial(setup), moves)
  }

  /** Such a run is a run; all that holds in every run holds in it. */
  lemma RunsWithAreRuns(setup: Setup, commands: set<Command>, moves: seq<Move>)
    requires ReachWith(setup, commands, moves).Some?
    ensures Reach(setup, moves) == ReachWith(setup, commands, moves)
  {
    hide Enabled, Do;
    StricterRun(MovesWith(setup, commands), Moves(setup), Initial(setup), moves);
  }

  /** The object of a completed result is in the store, with the size and the hash of the event. */
  ghost predicate Truthful(setup: Setup, s: State) {
    forall i :: 0 <= i < |s.results| && s.results[i].outcome.Completed? ==> TruthfulResult(setup, s, s.results[i])
  }

  ghost predicate TruthfulResult(setup: Setup, s: State, result: Posted)
    requires result.outcome.Completed?
  {
    && result.origin < |s.attempts| && s.attempts[result.origin].id < |s.sent|
    && var spec := SpecOf(setup.service, s.sent[s.attempts[result.origin].id]);
    && spec.Some? && spec.value.outputKey in s.store
    && |s.store[spec.value.outputKey]| == result.outcome.complete.fileSize
    && setup.service.tools.sha256(s.store[spec.value.outputKey]) == result.outcome.complete.sha256
  }

  // ----- what stays the same -----

  ghost predicate SameAt(s: map<string, Bytes>, t: map<string, Bytes>, key: string) {
    (key in s <==> key in t) && (key in s ==> s[key] == t[key])
  }

  ghost predicate SourcesIntact(setup: Setup, commands: set<Command>, s: State) {
    forall c :: c in commands && SpecOf(setup.service, c).Some? ==>
      SameAt(s.store, setup.store, SpecOf(setup.service, c).value.sourceKey)
  }

  ghost predicate FetchesTrue(setup: Setup, s: State) {
    forall k, e :: 0 <= k < |s.attempts| && e in s.attempts[k].effects && e.Fetch? ==>
      e.key in setup.store && setup.store[e.key] == e.content
  }

  ghost predicate StoresStand(s: State) {
    forall k, e :: 0 <= k < |s.attempts| && e in s.attempts[k].effects && e.Store? && e.landed ==>
      e.key in s.store && s.store[e.key] == e.content
  }

  ghost predicate Faithful(setup: Setup, commands: set<Command>, s: State) {
    && (forall c :: c in s.sent ==> c in commands)
    && SourcesIntact(setup, commands, s) && FetchesTrue(setup, s) && StoresStand(s)
  }

  /** What an upload writes is what its command asks for, made from the original source. */
  ghost predicate Writes(setup: Setup, command: Command, key: string, content: Bytes) {
    var spec := SpecOf(setup.service, command);
    && spec.Some? && key == spec.value.outputKey && spec.value.sourceKey in setup.store
    && content == setup.service.tools.optimize(setup.store[spec.value.sourceKey], spec.value.options)
  }

  lemma StoreAsked(setup: Setup, s: State, k: nat, effect: Effect)
    requires AttemptsOk(setup, s) && FetchesTrue(setup, s) && CanAct(setup, s, k, effect) && effect.Store?
    ensures Writes(setup, s.sent[s.attempts[k].id], effect.key, effect.content)
  {
    var a := s.attempts[k];
    assert AttemptOk(setup, s, a);
    PhaseBelongs(setup.service, a.readCount, s.sent[a.id], a.effects);
    WorkSoFar(setup.service, a.readCount, s.sent[a.id], a.effects);
    hide After, MonotoneSamples, Start, JobOf, MayPublish;
    assert a.effects[0] in a.effects;
  }

  lemma StoreMade(setup: Setup, s: State, k: nat, e: Effect)
    requires AttemptsOk(setup, s) && FetchesTrue(setup, s) && k < |s.attempts|
    requires e in s.attempts[k].effects && e.Store?
    ensures Writes(setup, s.sent[s.attempts[k].id], e.key, e.content)
  {
    var a := s.attempts[k];
    assert AttemptOk(setup, s, a);
    var n :| 0 <= n < |a.effects| && a.effects[n] == e;
    var phase := PhaseOf(setup.service, a.readCount, s.sent[a.id], a.effects, n);
    PhaseBelongs(setup.service, a.readCount, s.sent[a.id], a.effects[..n]);
    WorkSoFar(setup.service, a.readCount, s.sent[a.id], a.effects[..n]);
    hide After, MonotoneSamples, Start, JobOf, MayPublish;
    assert a.effects[..n][0] in a.effects;
  }

  /** Two uploads to one key agree. */
  lemma WritesAgree(setup: Setup, commands: set<Command>, a: Command, b: Command, key: string, content: Bytes, other: Bytes)
    requires Undisturbed(setup.service, commands) && a in commands && b in commands
    requires Writes(setup, a, key, content) && Writes(setup, b, key, other)
    ensures content == other
  {
    hide SpecOf;
  }

  lemma WriteSparesSources(setup: Setup, commands: set<Command>, s: State, a: Command, key: string, content: Bytes)
    requires Undisturbed(setup.service, commands) && a in commands && Writes(setup, a, key, content)
    requires SourcesIntact(setup, commands, s)
    ensures SourcesIntact(setup, commands, s.(store := s.store[key := content]))
  {
    hide SpecOf;
    var t := s.(store := s.store[key := content]);
    forall c | c in commands && SpecOf(setup.service, c).Some?
      ensures SameAt(t.store, setup.store, SpecOf(setup.service, c).value.sourceKey) {
      assert SameAt(s.store, setup.store, SpecOf(setup.service, c).value.sourceKey);
    }
  }

  /** The effects of attempts after a step: those before, and the one that was made. */
  lemma EffectsAfter(setup: Setup, s: State, move: Move)
    requires Enabled(setup, s, move)
    ensures var t := Do(setup, s, move);
            forall k, e :: 0 <= k < |t.attempts| && e in t.attempts[k].effects ==>
              || (k < |s.attempts| && e in s.attempts[k].effects)
              || (move.Act? && move.k == k && move.effect == e)
  {
    if move.Act? {
      TouchedExtends(s, move.k, move.effect);
    }
    hide Next, Start, Touched, Leased;
  }

  lemma StoreAfter(setup: Setup, s: State, move: Move)
    requires Enabled(setup, s, move)
    ensures Do(setup, s, move).store
         == if move.Act? && move.effect.Store? && move.effect.landed then s.store[move.effect.key := move.effect.content]
            else s.store
  {
    hide Next, Start;
  }

  lemma FetchIsTrue(setup: Setup, commands: set<Command>, s: State, k: nat, effect: Effect)
    requires AttemptsOk(setup, s) && Faithful(setup, commands, s) && CanAct(setup, s, k, effect) && effect.Fetch?
    ensures effect.key in setup.store && setup.store[effect.key] == effect.content
  {
    var a := s.attempts[k];
    assert AttemptOk(setup, s, a);
    PhaseBelongs(setup.service, a.readCount, s.sent[a.id], a.effects);
    hide After, MonotoneSamples, Start, JobOf, MayPublish, FetchesTrue, StoresStand;
    assert s.sent[a.id] in s.sent;
    assert SameAt(s.store, setup.store, effect.key);
  }

  lemma SentAfter(setup: Setup, s: State, move: Move)
    requires Enabled(setup, s, move)
    ensures Do(setup, s, move).sent == if move.Send? then s.sent + [move.command] else s.sent
  {
    hide Next, Start;
  }

  lemma UploadKeeps(setup: Setup, commands: set<Command>, s: State, k: nat, effect: Effect)
    requires Undisturbed(setup.service, commands) && Sound(setup, s) && Faithful(setup, commands, s)
    requires CanAct(setup, s, k, effect) && effect.Store? && effect.landed
    ensures var store := s.store[effect.key := effect.content];
            && SourcesIntact(setup, commands, s.(store := store))
            && forall j, e :: 0 <= j < |s.attempts| && e in s.attempts[j].effects && e.Store? && e.landed ==>
                 e.key in store && store[e.key] == e.content
  {
    StoreAsked(setup, s, k, effect);
    assert AttemptOk(setup, s, s.attempts[k]);
    var a := s.sent[s.attempts[k].id];
    assert a in s.sent;
    WriteSparesSources(setup, commands, s, a, effect.key, effect.content);
    hide Next, Sound, SourcesIntact, Undisturbed, Writes;
    forall j, e | 0 <= j < |s.attempts| && e in s.attempts[j].effects && e.Store? && e.landed && e.key == effect.key
      ensures e.content == effect.content {
      StoreMade(setup, s, j, e);
      assert AttemptOk(setup, s, s.attempts[j]);
      WritesAgree(setup, commands, s.sent[s.attempts[j].id], a, e.key, e.content, effect.content);
    }
  }

  lemma FetchesKept(setup: Setup, commands: set<Command>, s: State, move: Move)
    requires AttemptsOk(setup, s) && Faithful(setup, commands, s) && Enabled(setup, s, move)
    ensures FetchesTrue(setup, Do(setup, s, move))
  {
    EffectsAfter(setup, s, move);
    if move.Act? && move.effect.Fetch? {
      FetchIsTrue(setup, commands, s, move.k, move.effect);
    }
    hide Do, Enabled, AttemptsOk, SourcesIntact, StoresStand;
  }

  /** Uploads that stand still stand in a store that has them, next to one more upload that is there. */
  lemma StillStand(s: State, t: State)
    requires forall k, e :: 0 <= k < |t.attempts| && e in t.attempts[k].effects && e.Store? && e.landed ==>
               (k < |s.attempts| && e in s.attempts[k].effects) || (e.key in t.store && t.store[e.key] == e.content)
    requires forall k, e :: 0 <= k < |s.attempts| && e in s.attempts[k].effects && e.Store? && e.landed ==>
               e.key in t.store && t.store[e.key] == e.content
    ensures StoresStand(t)
  {
  }

  lemma StoresKept(setup: Setup, commands: set<Command>, s: State, move: Move)
    requires Undisturbed(setup.service, commands) && Sound(setup, s) && Faithful(setup, commands, s) && Enabled(setup, s, move)
    ensures SourcesIntact(setup, commands, Do(setup, s, move)) && StoresStand(Do(setup, s, move))
  {
    EffectsAfter(setup, s, move);
    StoreAfter(setup, s, move);
    hide Do, Enabled, Sound, Undisturbed, FetchesTrue, SpecOf;
    if move.Act? && move.effect.Store? && move.effect.landed {
      UploadKeeps(setup, commands, s, move.k, move.effect);
      hide StoresStand;
      StillStand(s, Do(setup, s, move));
    } else {
      StillStand(s, Do(setup, s, move));
    }
  }

  lemma FaithfulKept(setup: Setup, commands: set<Command>, s: State, move: Move)
    requires Undisturbed(setup.service, commands) && Sound(setup, s) && Faithful(setup, commands, s)
    requires MovesWith(setup, commands)(s, move).Some?
    ensures Faithful(setup, commands, Do(setup, s, move))
  {
    FetchesKept(setup, commands, s, move);
    StoresKept(setup, commands, s, move);
    SentAfter(setup, s, move);
    hide Do, Enabled, Sound, SourcesIntact, FetchesTrue, StoresStand;
  }

  lemma AlwaysFaithful(setup: Setup, commands: set<Command>, moves: seq<Move>)
    requires Undisturbed(setup.service, commands) && ReachWith(setup, commands, moves).Some?
    ensures var s := ReachWith(setup, commands, moves).value; Sound(setup, s) && Faithful(setup, commands, s)
  {
    var step := MovesWith(setup, commands);
    InitiallySound(setup);
    assert Faithful(setup, commands, Initial(setup));
    hide Sound, Do, Enabled, Faithful, Undisturbed;
    forall s, move | Sound(setup, s) && Faithful(setup, commands, s) && step(s, move).Some?
      ensures Sound(setup, step(s, move).value) && Faithful(setup, commands, step(s, move).value) {
      SoundKept(setup, s, move);
      FaithfulKept(setup, commands, s, move);
    }
    RunKeeps(step, s => Sound(setup, s) && Faithful(setup, commands, s), Initial(setup), moves);
  }

  lemma FaithfulIsTruthful(setup: Setup, commands: set<Command>, s: State)
    requires Sound(setup, s) && Faithful(setup, commands, s)
    ensures Truthful(setup, s)
  {
    forall i | 0 <= i < |s.results| && s.results[i].outcome.Completed? ensures TruthfulResult(setup, s, s.results[i]) {
      CompletedIsTrue(setup, s, s.results[i].origin, s.results[i].outcome);
    }
  }

  lemma CompletedIsTrue(setup: Setup, s: State, k: nat, outcome: Outcome)
    requires AttemptsOk(setup, s) && StoresStand(s) && k < |s.attempts| && Landed(s.attempts[k], outcome) && outcome.Completed?
    ensures TruthfulResult(setup, s, Posted(k, outcome))
  {
    var a := s.attempts[k];
    assert AttemptOk(setup, s, a);
    var n :| 0 <= n < |a.effects| && a.effects[n].Enqueue? && a.effects[n].outcome == outcome;
    var source, output := CompletedIsStored(setup.service, a.readCount, s.sent[a.id], a.effects, n);
    hide After, MonotoneSamples, Start;
    assert a.effects[1] in a.effects;
  }

  /** With undisturbed commands, every completed result tells the truth in every reachable state. */
  lemma StaysTruthful(setup: Setup, commands: set<Command>, moves: seq<Move>)
    requires Undisturbed(setup.service, commands) && ReachWith(setup, commands, moves).Some?
    ensures Truthful(setup, ReachWith(setup, commands, moves).value)
  {
    AlwaysFaithful(setup, commands, moves);
    hide ReachWith, Sound, Faithful;
    FaithfulIsTruthful(setup, commands, ReachWith(setup, commands, moves).value);
  }

  /**
   With keys that tell files apart, it is enough that every job writes a file of
   its own that no other job reads: its own source is spared by the checks.
   */
  lemma DistinctFilesSuffice(service: Service, commands: set<Command>)
    requires KeysTellFilesApart(service.tools.checks)
    requires forall id :: service.tools.checks.isUuid(id) ==> TrimSpace(id) != ""
    requires forall a, b :: a in commands && b in commands && a != b && JobOf(service, a).Some? && JobOf(service, b).Some? ==>
               && GetFileId(JobOf(service, a).value.output) != GetFileId(JobOf(service, b).value.output)
               && GetFileId(JobOf(service, a).value.output) != GetFileId(GetSource(JobOf(service, b).value.identity))
    ensures Undisturbed(service, commands)
  {
    hide Start, JobOf, TrimSpace;
    forall a, b | a in commands && b in commands && SpecOf(service, a).Some? && SpecOf(service, b).Some?
      ensures !Clash(SpecOf(service, a).value, SpecOf(service, b).value) {
      SpecFiles(service, a);
      SpecFiles(service, b);
    }
  }

  /** The keys of accepted work are those of its two files. */
  lemma SpecFiles(service: Service, command: Command)
    requires SpecOf(service, command).Some?
    ensures JobOf(service, command).Some?
    ensures var job, spec := JobOf(service, command).value, SpecOf(service, command).value;
            var checks, output, source := service.tools.checks, GetFileId(job.output), GetFileId(GetSource(job.identity));
            && checks.isUuid(output) && checks.isUuid(source) && output != source
            && checks.mediaKey(output, EXTENSION) == Some(spec.outputKey)
            && checks.mediaKey(source, EXTENSION) == Some(spec.sourceKey)
  {
    StartBelongs(service, command);
    SpecOfJob(service, command);
    hide Start, JobOf, TrimSpace, NewMeshJobSpec;
    AcceptedExactly(service.tools.checks, JobOf(service, command).value);
    SpecKeys(service.tools.checks, JobOf(service, command).value);
  }

  lemma SpecOfJob(service: Service, command: Command)
    requires SpecOf(service, command).Some? && JobOf(service, command).Some?
    ensures NewMeshJobSpec(service.tools.checks, JobOf(service, command).value) == Success(SpecOf(service, command).value)
  {
    hide NewMeshJobSpec, ValidateJobId;
  }

  lemma SpecKeys(checks: Checks, job: Job)
    requires NewMeshJobSpec(checks, job).Success?
    ensures var spec := NewMeshJobSpec(checks, job).value;
            spec.sourceKey == GetObjectKey(GetSource(job.identity)) && spec.outputKey == GetObjectKey(job.output)
  {
    hide ValidateJob, OptionsFromEvent, TrimSpace;
  }
}
