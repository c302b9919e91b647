/**
 One delivery of a command, from the read to its disposition: the steps that
 `process` (internal/mq/consumer.go) and `HandleMeshJob` (internal/handler) take
 together, seen from the queues and the object store.
 */
module Delivery {
  import opened Wrappers
  import opened Errors
  import opened Strings
  import opened Validation
  import opened Events
  import opened InspectReport
  import opened Options
  import opened Folds
  import Backoff

  datatype Config = Config(messageType: string, timeout: nat, retryLimit: nat)

  /** A queue row's message. */
  datatype Command = Command(contractError: string, messageType: string, payload: Option<Bytes>)

  const DEFAULT_MAX_INPUT_BYTES: nat := 50 * 1024 * 1024

  /** The libraries and programs the service relies on. */
  datatype Tools = Tools(
    decode: Bytes -> Option<Job>,
    checks: Checks,
    optimize: (Bytes, Options) -> Bytes,
    inspect: Bytes -> Inspection,
    sha256: Bytes -> Bytes,
    configuredMaxInputBytes: int)
  {
    /** The limit that NewProcessor settles on; some input always fits. */
    function MaxInputBytes(): (limit: nat)
      ensures limit >= 1
      ensures configuredMaxInputBytes >= 1 ==> limit == configuredMaxInputBytes
      ensures configuredMaxInputBytes < 1 ==> limit == 52_428_800
    {
      if configuredMaxInputBytes <= 0 then DEFAULT_MAX_INPUT_BYTES else configuredMaxInputBytes
    }
  }

  datatype Service = Service(config: Config, tools: Tools)

  /**
   Calls that reach the outside. A call may report a failure although it took
   effect; a call that reports success did take effect.
   */
  datatype Effect =
    | Fetch(key: string, content: Bytes)
    | Store(key: string, content: Bytes, landed: bool, ok: bool)
    | Enqueue(outcome: Outcome, landed: bool, ok: bool)
    | Sample(cancelled: bool)
    | Delete(landed: bool, ok: bool)
    | SetVisibility(delay: int, landed: bool, ok: bool)
    | Archive(landed: bool, ok: bool)

  datatype Phase =
    | Rejecting
    | Working(job: Job, spec: Spec)
    | Fetched(job: Job, spec: Spec, source: Bytes)
    | Doomed(job: Job, reason: FailureReason)
    | Stored(job: Job, spec: Spec, source: Bytes)
    | Returned(verdict: Verdict)
    | ShutdownCheck(verdict: Verdict)
    | Completing
    | Requeueing
    | Failing(verdict: Verdict)
    | Finished

  predicate ContractValid(config: Config, command: Command) {
    command.contractError == "" && command.messageType == config.messageType && command.payload.Some?
  }

  /** Where a delivery starts; commands that are not even jobs are archived or failed without a result. */
  function Start(service: Service, command: Command): Phase {
    if !ContractValid(service.config, command) then Rejecting
    else
      var job := service.tools.decode(command.payload.value);
      if job.None? || ValidateJobId(service.tools.checks, job.value).Some? then Returned(Plain)
      else
        match NewMeshJobSpec(service.tools.checks, job.value)
        case Failure(_) => Doomed(job.value, Rejected)
        case Success(spec) => Working(job.value, spec)
  }

  /** The job in a command whose results can be told apart by a job id. */
  function JobOf(service: Service, command: Command): Option<Job> {
    if !ContractValid(service.config, command) then None
    else
      var job := service.tools.decode(command.payload.value);
      if job.Some? && ValidateJobId(service.tools.checks, job.value).None? then job else None
  }

  /** Which commands have a job to answer for, and where its delivery starts. */
  lemma JobOfExactly(service: Service, command: Command, job: Job)
    ensures JobOf(service, command) == Some(job) <==>
              && command.contractError == "" && command.messageType == service.config.messageType
              && command.payload.Some? && service.tools.decode(command.payload.value) == Some(job)
              && TrimSpace(job.jobId) != "" && service.tools.checks.isUuid(job.jobId)
    ensures var accepted := NewMeshJobSpec(service.tools.checks, job);
            JobOf(service, command) == Some(job) ==>
              Start(service, command) == if accepted.Success? then Working(job, accepted.value) else Doomed(job, Rejected)
    ensures Start(service, command).Working? || Start(service, command).Doomed? ==> JobOf(service, command).Some?
  {
    hide TrimSpace, NewMeshJobSpec;
  }

  /** The result of a pipeline run that turned `source` into `output`. */
  function ResultFrom(tools: Tools, source: Bytes, output: Bytes): PipelineResult {
    PipelineResult(tools.inspect(source), tools.inspect(output), |source|, |output|, tools.sha256(output))
  }

  function CompletedFrom(tools: Tools, job: Job, spec: Spec, source: Bytes): Outcome {
    Completed(NewCompleteEvent(job, spec, ResultFrom(tools, source, tools.optimize(source, spec.options))))
  }

  /** The results a delivery may publish in a phase. */
  predicate MayPublish(tools: Tools, phase: Phase, outcome: Outcome) {
    match phase
    case Working(job, _) =>
      && outcome.Failed? && outcome == Failed(NewFailEvent(job, outcome.fail.reason))
      && outcome.fail.reason in {Internal, SourceNotFound, DownloadFailed, Rejected}
    case Fetched(job, _, source) =>
      && outcome.Failed? && outcome == Failed(NewFailEvent(job, outcome.fail.reason))
      && (|| outcome.fail.reason == DownloadFailed
          || outcome.fail.reason == if |source| > tools.MaxInputBytes() then Rejected else OptimizationFailed)
    case Doomed(job, reason) => outcome == Failed(NewFailEvent(job, reason))
    case Stored(job, spec, source) => outcome == CompletedFrom(tools, job, spec, source)
    case _ => false
  }

  function Published(outcome: Outcome, ok: bool): Verdict {
    if !ok then Retryable else if outcome.Completed? then Ok else Terminal
  }

  function Sampled(phase: Phase, cancelled: bool): Option<Phase> {
    match phase
    case Returned(verdict) =>
      if verdict == Ok || verdict == Terminal then
        Some(if cancelled then ShutdownCheck(verdict) else Completing)
      else Some(if cancelled then Requeueing else Failing(verdict))
    case ShutdownCheck(verdict) => Some(if cancelled then Requeueing else Failing(verdict))
    case _ => None
  }

  predicate BacksOff(config: Config, readCount: nat, verdict: Verdict) {
    verdict == Retryable && readCount <= config.retryLimit
  }

  predicate MayRetry(config: Config, readCount: nat, phase: Phase, delay: int) {
    || (phase.Requeueing? && delay == 0)
    || (phase.Failing? && BacksOff(config, readCount, phase.verdict) && delay == Backoff.Delay(readCount))
  }

  predicate MayArchive(config: Config, readCount: nat, phase: Phase) {
    phase.Rejecting? || (phase.Failing? && !BacksOff(config, readCount, phase.verdict))
  }

  function Next(service: Service, readCount: nat, phase: Phase, effect: Effect): Option<Phase> {
    match effect
    case Fetch(key, content) =>
      if !phase.Working? || key != phase.spec.sourceKey then None
      else Some(Fetched(phase.job, phase.spec, content))
    case Store(key, content, landed, ok) =>
      if phase.Fetched? && |phase.source| <= service.tools.MaxInputBytes()
         && key == phase.spec.outputKey && (ok ==> landed)
         && content == service.tools.optimize(phase.source, phase.spec.options)
      then Some(if ok then Stored(phase.job, phase.spec, phase.source) else Doomed(phase.job, UploadFailed))
      else None
    case Enqueue(outcome, landed, ok) =>
      if MayPublish(service.tools, phase, outcome) && (ok ==> landed)
      then Some(Returned(Published(outcome, ok))) else None
    case Sample(cancelled) => Sampled(phase, cancelled)
    case Delete(landed, ok) =>
      if phase.Completing? && (ok ==> landed) then Some(Finished) else None
    case SetVisibility(delay, landed, ok) =>
      if MayRetry(service.config, readCount, phase, delay) && (ok ==> landed) then Some(Finished) else None
    case Archive(landed, ok) =>
      if MayArchive(service.config, readCount, phase) && (ok ==> landed) then Some(Finished) else None
  }

  function Step(service: Service, readCount: nat): (Phase, Effect) -> Option<Phase> {
    (phase, effect) => Next(service, readCount, phase, effect)
  }

  /** Where a delivery of the command is after these effects; None if it cannot have them. */
  function After(service: Service, readCount: nat, command: Command, effects: seq<Effect>): Option<Phase> {
    Run(Step(service, readCount), Start(service, command), effects)
  }

  lemma AfterSnoc(service: Service, readCount: nat, command: Command, effects: seq<Effect>, effect: Effect)
    ensures var before := After(service, readCount, command, effects);
            After(service, readCount, command, effects + [effect])
            == if before.None? then None else Next(service, readCount, before.value, effect)
  {
    hide Next, Start;
    RunSnoc(Step(service, readCount), Start(service, command), effects, effect);
  }

  // ----- one result, one disposition -----

  predicate Disposes(effect: Effect) {
    effect.Delete? || effect.SetVisibility? || effect.Archive?
  }

  function CountEnqueues(effects: seq<Effect>): nat {
    if effects == [] then 0
    else CountEnqueues(effects[..|effects| - 1]) + (if effects[|effects| - 1].Enqueue? then 1 else 0)
  }

  function CountDispositions(effects: seq<Effect>): nat {
    if effects == [] then 0
    else CountDispositions(effects[..|effects| - 1]) + (if Disposes(effects[|effects| - 1]) then 1 else 0)
  }

  function PublishesLeft(phase: Phase): nat {
    if phase.Working? || phase.Fetched? || phase.Doomed? || phase.Stored? then 1 else 0
  }

  function DispositionsLeft(phase: Phase): nat {
    if phase.Finished? then 0 else 1
  }

  lemma NextCounts(service: Service, readCount: nat, phase: Phase, effect: Effect)
    requires Next(service, readCount, phase, effect).Some?
    ensures var next := Next(service, readCount, phase, effect).value;
            && (if effect.Enqueue? then 1 else 0) + PublishesLeft(next) == PublishesLeft(phase)
            && (if Disposes(effect) then 1 else 0) + DispositionsLeft(next) == DispositionsLeft(phase)
  {
  }

  lemma StartCounts(service: Service, command: Command)
    ensures PublishesLeft(Start(service, command)) == if JobOf(service, command).Some? then 1 else 0
    ensures DispositionsLeft(Start(service, command)) == 1
  {
    hide NewMeshJobSpec, ValidateJobId;
  }

  /** A delivery publishes once if it has a job to answer for and never otherwise, and disposes of its message once. */
  lemma {:induction false} OneResultOneDisposition(service: Service, readCount: nat, command: Command, effects: seq<Effect>)
    requires After(service, readCount, command, effects).Some?
    ensures var phase := After(service, readCount, command, effects).value;
            && CountEnqueues(effects) + PublishesLeft(phase) == (if JobOf(service, command).Some? then 1 else 0)
            && CountDispositions(effects) + DispositionsLeft(phase) == 1
    decreases |effects|
  {
    StartCounts(service, command);
    hide Next, Start, JobOf, PublishesLeft, DispositionsLeft;
    if effects != [] {
      var front, last := effects[..|effects| - 1], effects[|effects| - 1];
      assert effects == front + [last];
      AfterSnoc(service, readCount, command, front, last);
      OneResultOneDisposition(service, readCount, command, front);
      NextCounts(service, readCount, After(service, readCount, command, front).value, last);
    }
  }

  lemma {:induction false} NoEnqueue(effects: seq<Effect>, effect: Effect)
    requires effect in effects && effect.Enqueue?
    ensures CountEnqueues(effects) >= 1
  {
    if effects[|effects| - 1] != effect {
      NoEnqueue(effects[..|effects| - 1], effect);
    }
  }

  // ----- what the effects of a delivery prove -----

  /** The job and the work of a delivery are those of its command. */
  predicate Belongs(service: Service, command: Command, phase: Phase) {
    match phase
    case Working(job, spec) => Start(service, command) == phase && JobOf(service, command) == Some(job)
    case Fetched(job, spec, _) => Start(service, command) == Working(job, spec) && JobOf(service, command) == Some(job)
    case Stored(job, spec, _) => Start(service, command) == Working(job, spec) && JobOf(service, command) == Some(job)
    case Doomed(job, _) => JobOf(service, command) == Some(job)
    case _ => true
  }

  lemma {:induction false} PhaseBelongs(service: Service, readCount: nat, command: Command, effects: seq<Effect>)
    requires After(service, readCount, command, effects).Some?
    ensures Belongs(service, command, After(service, readCount, command, effects).value)
    decreases |effects|
  {
    StartBelongs(service, command);
    hide Start, JobOf;
    if effects != [] {
      var front, last := effects[..|effects| - 1], effects[|effects| - 1];
      assert effects == front + [last];
      AfterSnoc(service, readCount, command, front, last);
      PhaseBelongs(service, readCount, command, front);
      hide Next, Belongs;
      NextBelongs(service, readCount, command, After(service, readCount, command, front).value, last);
    }
  }

  lemma NextBelongs(service: Service, readCount: nat, command: Command, phase: Phase, effect: Effect)
    requires Belongs(service, command, phase) && Next(service, readCount, phase, effect).Some?
    ensures Belongs(service, command, Next(service, readCount, phase, effect).value)
  {
    hide Start, JobOf, Backoff.Delay, MayPublish;
  }

  lemma StartBelongs(service: Service, command: Command)
    ensures Belongs(service, command, Start(service, command))
  {
    hide NewMeshJobSpec, ValidateJobId;
  }

  /** An effect of a delivery happens in some phase of it. */
  ghost predicate HappensIn(service: Service, readCount: nat, command: Command, effects: seq<Effect>,
                            effect: Effect, phase: Phase, n: nat) {
    && n < |effects| && effects[n] == effect
    && After(service, readCount, command, effects[..n]) == Some(phase)
    && Next(service, readCount, phase, effect).Some?
    && After(service, readCount, command, effects[..n + 1]) == Next(service, readCount, phase, effect)
  }

  lemma {:induction false} EveryPrefix(service: Service, readCount: nat, command: Command, effects: seq<Effect>, n: nat)
    requires n <= |effects| && After(service, readCount, command, effects).Some?
    ensures After(service, readCount, command, effects[..n]).Some?
  {
    assert effects == effects[..n] + effects[n..];
    RunConcat(Step(service, readCount), Start(service, command), effects[..n], effects[n..]);
  }

  lemma PhaseOf(service: Service, readCount: nat, command: Command, effects: seq<Effect>, n: nat) returns (phase: Phase)
    requires n < |effects| && After(service, readCount, command, effects).Some?
    ensures HappensIn(service, readCount, command, effects, effects[n], phase, n)
  {
    hide Next, Start;
    EveryPrefix(service, readCount, command, effects, n);
    EveryPrefix(service, readCount, command, effects, n + 1);
    phase := After(service, readCount, command, effects[..n]).value;
    PrefixStep(effects, n);
    AfterSnoc(service, readCount, command, effects[..n], effects[n]);
  }

  /** What leads up to an upload and to a completed result. */
  lemma {:induction false} WorkSoFar(service: Service, readCount: nat, command: Command, effects: seq<Effect>)
    requires After(service, readCount, command, effects).Some?
    ensures var phase := After(service, readCount, command, effects).value;
            && (phase.Working? ==> effects == [])
            && (phase.Fetched? ==> effects == [Fetch(phase.spec.sourceKey, phase.source)])
            && (phase.Stored? ==> |phase.source| <= service.tools.MaxInputBytes())
            && (phase.Stored? ==>
                  effects == [Fetch(phase.spec.sourceKey, phase.source),
                              Store(phase.spec.outputKey, service.tools.optimize(phase.source, phase.spec.options), true, true)])
    decreases |effects|
  {
    StartIsEarly(service, command);
    hide Start, MayPublish, Backoff.Delay;
    if effects != [] {
      var front, last := effects[..|effects| - 1], effects[|effects| - 1];
      assert effects == front + [last];
      AfterSnoc(service, readCount, command, front, last);
      WorkSoFar(service, readCount, command, front);
      assert front == [] ==> effects == [last];
      assert |front| == 1 ==> effects == [front[0], last];
    }
  }

  /** A completed event about this work, its source and its output. */
  ghost predicate Describes(tools: Tools, spec: Spec, source: Bytes, output: Bytes, event: CompleteEvent) {
    && event.jobId == spec.jobId && event.fileId == GetFileId(spec.outputTarget)
    && event.fileSize == event.optimizedSize == |output| && event.sha256 == tools.sha256(output)
    && event.originalSize == |source| && event.compression == Draco
    && event.targetRatioPercent == spec.options.targetRatioPercent
    && ProfileFromEvent(event.profile) == Success(spec.options.profile)
    && event.originalVertexCount == tools.inspect(source).uploadVertexCount
    && event.optimizedVertexCount == tools.inspect(output).uploadVertexCount
    && event.originalTriangleCount == tools.inspect(source).glPrimitiveCount
    && event.optimizedTriangleCount == tools.inspect(output).glPrimitiveCount
  }

  /**
   A completed result tells the truth when it is published: its delivery has
   read the source and stored, with success, an output of the size and hash in
   the event.
   */
  lemma CompletedIsStored(service: Service, readCount: nat, command: Command, effects: seq<Effect>, n: nat)
    returns (source: Bytes, output: Bytes)
    requires After(service, readCount, command, effects).Some?
    requires n < |effects| && effects[n].Enqueue? && effects[n].outcome.Completed?
    ensures Start(service, command).Working?
    ensures var spec := Start(service, command).spec;
            && n == 2 && effects[0] == Fetch(spec.sourceKey, source) && effects[1] == Store(spec.outputKey, output, true, true)
            && output == service.tools.optimize(source, spec.options)
            && |source| <= service.tools.MaxInputBytes()
            && Describes(service.tools, spec, source, output, effects[n].outcome.complete)
  {
    var phase := PhaseOf(service, readCount, command, effects, n);
    PhaseBelongs(service, readCount, command, effects[..n]);
    WorkSoFar(service, readCount, command, effects[..n]);
    hide Start, JobOf, CompletedFrom, Describes;
    assert phase.Stored?;
    CompletedDescribes(service.tools, phase.job, phase.spec, phase.source);
    source := phase.source;
    output := service.tools.optimize(source, phase.spec.options);
    assert effects[..n][0] == effects[0] && effects[..n][1] == effects[1];
  }

  lemma CompletedDescribes(tools: Tools, job: Job, spec: Spec, source: Bytes)
    ensures var outcome := CompletedFrom(tools, job, spec, source);
            outcome.Completed? && Describes(tools, spec, source, tools.optimize(source, spec.options), outcome.complete)
  {
  }

  /**
   Every result a delivery publishes carries the ids of the command's job; a
   failure has the job id as it came, a completion has it trimmed.
   */
  ghost predicate AnswersFor(service: Service, command: Command, outcome: Outcome) {
    var job := JobOf(service, command);
    && job.Some?
    && JobIdOf(outcome) == (if outcome.Completed? then TrimSpace(job.value.jobId) else job.value.jobId)
    && CorrelationIdOf(outcome) == job.value.correlationId && IdentityOf(outcome) == job.value.identity
  }

  lemma ResultsAnswer(service: Service, readCount: nat, command: Command, effects: seq<Effect>, n: nat)
    requires After(service, readCount, command, effects).Some?
    requires n < |effects| && effects[n].Enqueue?
    ensures AnswersFor(service, command, effects[n].outcome)
  {
    var phase := PhaseOf(service, readCount, command, effects, n);
    PhaseBelongs(service, readCount, command, effects[..n]);
    SpecJobId(service, command);
    hide JobOf, TrimSpace, Start, After;
    PublishedIds(service, readCount, phase, effects[n]);
  }

  lemma PublishedIds(service: Service, readCount: nat, phase: Phase, effect: Effect)
    requires effect.Enqueue? && Next(service, readCount, phase, effect).Some?
    ensures phase.Working? || phase.Fetched? || phase.Doomed? || phase.Stored?
    ensures effect.outcome.Completed? <==> phase.Stored?
    ensures JobIdOf(effect.outcome) == if phase.Stored? then phase.spec.jobId else phase.job.jobId
    ensures CorrelationIdOf(effect.outcome) == phase.job.correlationId && IdentityOf(effect.outcome) == phase.job.identity
  {
  }

  lemma SpecJobId(service: Service, command: Command)
    ensures var phase := Start(service, command);
            phase.Working? ==> phase.spec.jobId == TrimSpace(phase.job.jobId)
  {
    hide ValidateJobId, ValidateJob, ContractValid, OptionsFromEvent, TrimSpace;
  }

  /** The enqueue attempts behind a verdict. */
  ghost predicate Behind(verdict: Verdict, effects: seq<Effect>) {
    match verdict
    case Ok => exists n :: 0 <= n < |effects| && effects[n].Enqueue? && effects[n].ok && effects[n].outcome.Completed?
    case Terminal => exists n :: 0 <= n < |effects| && effects[n].Enqueue? && effects[n].ok && effects[n].outcome.Failed?
    case Retryable => exists n :: 0 <= n < |effects| && effects[n].Enqueue? && !effects[n].ok
    case Plain => forall n :: 0 <= n < |effects| ==> !effects[n].Enqueue?
  }

  /** What the phases after the handler's return say about its publish attempt. */
  ghost predicate Earned(phase: Phase, effects: seq<Effect>) {
    match phase
    case Returned(verdict) => Behind(verdict, effects)
    case ShutdownCheck(verdict) => Behind(verdict, effects) && (verdict == Ok || verdict == Terminal)
    case Failing(verdict) => Behind(verdict, effects)
    case Completing => Behind(Ok, effects) || Behind(Terminal, effects)
    case _ => true
  }

  lemma BehindSnoc(verdict: Verdict, effects: seq<Effect>, effect: Effect)
    requires Behind(verdict, effects) && !effect.Enqueue?
    ensures Behind(verdict, effects + [effect])
  {
    var longer := effects + [effect];
    assert forall n :: 0 <= n < |effects| ==> longer[n] == effects[n];
  }

  lemma {:induction false} PhaseIsEarned(service: Service, readCount: nat, command: Command, effects: seq<Effect>)
    requires After(service, readCount, command, effects).Some?
    ensures Earned(After(service, readCount, command, effects).value, effects)
    decreases |effects|
  {
    if effects == [] {
      StartIsEarly(service, command);
    } else {
      var front, last := effects[..|effects| - 1], effects[|effects| - 1];
      assert effects == front + [last];
      AfterSnoc(service, readCount, command, front, last);
      PhaseIsEarned(service, readCount, command, front);
      hide Next, Start;
      NextIsEarned(service, readCount, After(service, readCount, command, front).value, front, last);
    }
  }

  lemma NextIsEarned(service: Service, readCount: nat, phase: Phase, effects: seq<Effect>, effect: Effect)
    requires Earned(phase, effects) && Next(service, readCount, phase, effect).Some?
    ensures Earned(Next(service, readCount, phase, effect).value, effects + [effect])
  {
    hide MayPublish, Backoff.Delay, Behind;
    if effect.Enqueue? {
      EnqueueBehind(effects, effect);
    } else {
      forall verdict | Behind(verdict, effects) ensures Behind(verdict, effects + [effect]) {
        BehindSnoc(verdict, effects, effect);
      }
    }
  }

  lemma StartIsEarly(service: Service, command: Command)
    ensures var phase := Start(service, command);
            phase.Rejecting? || phase.Working? || (phase.Doomed? && phase.reason == Rejected) || phase == Returned(Plain)
    ensures Start(service, command).Rejecting? ==> !ContractValid(service.config, command)
  {
    hide NewMeshJobSpec, ValidateJobId;
  }

  lemma EnqueueBehind(effects: seq<Effect>, effect: Effect)
    requires effect.Enqueue?
    ensures Behind(Published(effect.outcome, effect.ok), effects + [effect])
  {
    assert (effects + [effect])[|effects|] == effect;
  }

  lemma {:induction false} OnlyEnqueue(effects: seq<Effect>, m: nat, n: nat)
    requires m < n < |effects| && effects[m].Enqueue? && effects[n].Enqueue?
    ensures CountEnqueues(effects) >= 2
  {
    var front := effects[..|effects| - 1];
    if n < |front| {
      OnlyEnqueue(front, m, n);
    } else {
      assert front[m] == effects[m];
      NoEnqueue(front, effects[m]);
    }
  }

  /**
   The outcome encoding is exact: the handler returns nil for one acknowledged
   completion, a terminal result for one acknowledged failure, a publish error
   for one attempt reported failed, and any other error for no attempt at all.
   */
  lemma OutcomeEncoding(service: Service, readCount: nat, command: Command, effects: seq<Effect>, verdict: Verdict)
    requires var phase := After(service, readCount, command, effects);
             phase.Some? && phase.value.Returned?
    ensures After(service, readCount, command, effects) == Some(Returned(verdict)) <==> Behind(verdict, effects)
  {
    PhaseIsEarned(service, readCount, command, effects);
    OneResultOneDisposition(service, readCount, command, effects);
    hide After;
    forall m: nat, n: nat | m < n < |effects| && effects[m].Enqueue? && effects[n].Enqueue? ensures false {
      OnlyEnqueue(effects, m, n);
    }
  }

  // ----- dispositions -----

  lemma FinishedIsFinal(service: Service, readCount: nat, command: Command, effects: seq<Effect>, n: nat)
    requires After(service, readCount, command, effects).Some?
    requires n < |effects| && Disposes(effects[n])
    ensures n == |effects| - 1
  {
    hide Start;
    var phase := PhaseOf(service, readCount, command, effects, n);
    if n + 1 < |effects| {
      var later := PhaseOf(service, readCount, command, effects, n + 1);
    }
  }

  /** No delete without a result: a command is acknowledged only after a result for its job was. */
  lemma DeletedAfterResult(service: Service, readCount: nat, command: Command, effects: seq<Effect>, n: nat) returns (m: nat)
    requires After(service, readCount, command, effects).Some?
    requires n < |effects| && effects[n].Delete?
    ensures m < n && effects[m].Enqueue? && effects[m].ok && AnswersFor(service, command, effects[m].outcome)
  {
    var phase := PhaseOf(service, readCount, command, effects, n);
    var before := effects[..n];
    PhaseIsEarned(service, readCount, command, before);
    m :| 0 <= m < |before| && before[m].Enqueue? && before[m].ok;
    ResultsAnswer(service, readCount, command, before, m);
  }

  /** Cancellation is never withdrawn. */
  ghost predicate MonotoneSamples(effects: seq<Effect>) {
    forall m, n :: 0 <= m < n < |effects| && effects[m] == Sample(true) && effects[n].Sample? ==> effects[n].cancelled
  }

  /** With a cancellation that stays, neither nil nor a terminal result reaches the failure branch. */
  lemma AnswersDoNotFail(service: Service, readCount: nat, command: Command, effects: seq<Effect>)
    requires var phase := After(service, readCount, command, effects);
             phase.Some? && phase.value.Failing?
    requires MonotoneSamples(effects)
    ensures After(service, readCount, command, effects).value.verdict in {Retryable, Plain}
  {
    hide Start, Backoff.Delay, MayPublish;
    StartIsEarly(service, command);
    var n := |effects| - 1;
    var phase := PhaseOf(service, readCount, command, effects, n);
    assert effects[..n + 1] == effects;
    LastSamples(effects);
    CheckedWhenCancelled(service, readCount, command, effects[..n]);
  }

  lemma LastSamples(effects: seq<Effect>)
    requires MonotoneSamples(effects)
    ensures |effects| >= 2 && effects[|effects| - 1] == Sample(false) ==> effects[|effects| - 2] != Sample(true)
  {
  }

  lemma CheckedWhenCancelled(service: Service, readCount: nat, command: Command, effects: seq<Effect>)
    requires After(service, readCount, command, effects).Some?
    ensures After(service, readCount, command, effects).value.ShutdownCheck? ==>
              effects != [] && effects[|effects| - 1] == Sample(true)
  {
    StartIsEarly(service, command);
    hide Start, Backoff.Delay, MayPublish;
    if effects != [] {
      var phase := PhaseOf(service, readCount, command, effects, |effects| - 1);
      assert effects[..|effects| - 1 + 1] == effects;
    }
  }

  /** Without that, an answered command would be archived although it was read only once. */
  lemma WithdrawnCancellation(service: Service, readCount: nat, command: Command, effects: seq<Effect>)
    requires After(service, readCount, command, effects) == Some(Returned(Ok))
    ensures After(service, readCount, command, effects + [Sample(true)] + [Sample(false)] + [Archive(true, true)]) == Some(Finished)
  {
    hide After;
    AfterSnoc(service, readCount, command, effects, Sample(true));
    AfterSnoc(service, readCount, command, effects + [Sample(true)], Sample(false));
    AfterSnoc(service, readCount, command, effects + [Sample(true)] + [Sample(false)], Archive(true, true));
  }

  /** Only a cancelled delivery gives its message back at once. */
  lemma RequeueingIsCancelled(service: Service, readCount: nat, command: Command, effects: seq<Effect>)
    requires After(service, readCount, command, effects) == Some(Requeueing)
    ensures Sample(true) in effects
  {
    StartIsEarly(service, command);
    hide Start, Backoff.Delay, MayPublish;
    assert effects != [];
    var phase := PhaseOf(service, readCount, command, effects, |effects| - 1);
    assert effects[..|effects| - 1 + 1] == effects;
  }

  lemma {:induction false} RejectingIsFirst(service: Service, readCount: nat, command: Command, effects: seq<Effect>)
    requires After(service, readCount, command, effects) == Some(Rejecting)
    ensures Start(service, command) == Rejecting && JobOf(service, command).None?
  {
    StartRejecting(service, command);
    hide Start, JobOf;
    if effects != [] {
      var phase := PhaseOf(service, readCount, command, effects, |effects| - 1);
      assert effects[..|effects| - 1 + 1] == effects;
      NeverRejectingAgain(service, readCount, phase, effects[|effects| - 1]);
    }
  }

  lemma StartRejecting(service: Service, command: Command)
    ensures Start(service, command) == Rejecting ==> JobOf(service, command).None?
  {
    hide NewMeshJobSpec, ValidateJobId;
  }

  lemma NeverRejectingAgain(service: Service, readCount: nat, phase: Phase, effect: Effect)
    ensures Next(service, readCount, phase, effect) != Some(Rejecting)
  {
    hide MayPublish, Backoff.Delay;
  }

  /**
   A well-formed command is archived only by a delivery beyond the retry limit
   whose result could not be published.
   */
  lemma ArchivedWhenSpent(service: Service, readCount: nat, command: Command, effects: seq<Effect>, n: nat)
    requires After(service, readCount, command, effects).Some? && MonotoneSamples(effects)
    requires JobOf(service, command).Some?
    requires n < |effects| && effects[n].Archive?
    ensures readCount > service.config.retryLimit
    ensures Behind(Retryable, effects[..n])
  {
    var phase := PhaseOf(service, readCount, command, effects, n);
    var before := effects[..n];
    assert MonotoneSamples(before);
    ArchivePhases(service, readCount, phase, effects[n]);
    hide Next, Start, JobOf;
    if phase.Rejecting? {
      RejectingIsFirst(service, readCount, command, before);
    } else {
      AnswersDoNotFail(service, readCount, command, before);
      FailsUnanswered(service, readCount, command, before);
    }
  }

  lemma ArchivePhases(service: Service, readCount: nat, phase: Phase, effect: Effect)
    requires effect.Archive? && Next(service, readCount, phase, effect).Some?
    ensures phase.Rejecting? || (phase.Failing? && !BacksOff(service.config, readCount, phase.verdict))
  {
  }

  lemma FailsUnanswered(service: Service, readCount: nat, command: Command, effects: seq<Effect>)
    requires var phase := After(service, readCount, command, effects);
             phase.Some? && phase.value.Failing? && phase.value.verdict in {Retryable, Plain}
    requires JobOf(service, command).Some?
    ensures After(service, readCount, command, effects).value.verdict == Retryable && Behind(Retryable, effects)
  {
    hide After, JobOf, CountDispositions, CountEnqueues, Behind;
    PhaseIsEarned(service, readCount, command, effects);
    OneResultOneDisposition(service, readCount, command, effects);
    NoneCounted(effects);
  }

  lemma {:induction false} NoneCounted(effects: seq<Effect>)
    ensures Behind(Plain, effects) ==> CountEnqueues(effects) == 0
  {
    if effects != [] {
      var front := effects[..|effects| - 1];
      NoneCounted(front);
      assert Behind(Plain, effects) ==> forall n :: 0 <= n < |front| ==> front[n] == effects[n];
    }
  }

  // ----- which disposition, told from the effects alone -----

  /** What stands right before a disposition. */
  lemma BeforeDisposing(service: Service, readCount: nat, command: Command, effects: seq<Effect>)
    requires After(service, readCount, command, effects).Some?
    ensures var phase := After(service, readCount, command, effects).value;
            && (phase.Rejecting? ==> effects == [])
            && (phase.Completing? || phase.Failing? ==> effects != [] && effects[|effects| - 1] == Sample(false))
            && (phase.Requeueing? ==> effects != [] && effects[|effects| - 1] == Sample(true))
  {
    StartIsEarly(service, command);
    hide Start, Backoff.Delay, MayPublish;
    if effects != [] {
      var phase := PhaseOf(service, readCount, command, effects, |effects| - 1);
      assert effects[..|effects| - 1 + 1] == effects;
    }
  }

  /** A publish that was acknowledged. */
  ghost predicate Acknowledged(effects: seq<Effect>) {
    exists m :: 0 <= m < |effects| && effects[m].Enqueue? && effects[m].ok
  }

  /** The context is done whenever the consumer looked, or never. */
  lemma OneAnswer(effects: seq<Effect>, n: nat)
    requires MonotoneSamples(effects) && 1 <= n && |effects| == n + 1
    requires effects[n - 1].Sample? && !effects[n].Sample?
    ensures Sample(true) in effects <==> effects[n - 1].cancelled
  {
    if Sample(true) in effects {
      var m :| 0 <= m < |effects| && effects[m] == Sample(true);
      assert m < n - 1 ==> effects[n - 1].cancelled;
    }
  }

  lemma AcknowledgedBefore(effects: seq<Effect>, n: nat)
    requires |effects| == n + 1 && !effects[n].Enqueue?
    ensures Acknowledged(effects) <==> Acknowledged(effects[..n])
  {
    if Acknowledged(effects) {
      var m :| 0 <= m < |effects| && effects[m].Enqueue? && effects[m].ok;
      assert effects[..n][m] == effects[m];
    }
  }

  /** What the branches after the handler's return make of a delivery. */
  ghost predicate Disposed(service: Service, readCount: nat, command: Command, effects: seq<Effect>, disposition: Effect) {
    if Sample(true) in effects then
      disposition.SetVisibility? && disposition.delay == 0
    else if Acknowledged(effects) then
      disposition.Delete?
    else if JobOf(service, command).Some? && readCount <= service.config.retryLimit then
      disposition.SetVisibility? && disposition.delay == Backoff.Delay(readCount)
    else
      disposition.Archive?
  }

  /** The same for a complete delivery; a malformed message, or one of another type, is archived with no other effect. */
  ghost predicate DisposedExactly(service: Service, readCount: nat, command: Command, effects: seq<Effect>) {
    && effects != []
    && if command.contractError != "" || command.messageType != service.config.messageType || command.payload.None?
       then |effects| == 1 && effects[0].Archive?
       else Disposed(service, readCount, command, effects, effects[|effects| - 1])
  }

  lemma {:induction false} AcknowledgedOnce(service: Service, readCount: nat, command: Command, effects: seq<Effect>)
    requires After(service, readCount, command, effects).Some?
    requires Behind(Retryable, effects) || Behind(Plain, effects)
    ensures !Acknowledged(effects)
  {
    OneResultOneDisposition(service, readCount, command, effects);
    hide After, JobOf;
    if Acknowledged(effects) && Behind(Retryable, effects) {
      var m :| 0 <= m < |effects| && effects[m].Enqueue? && effects[m].ok;
      var n :| 0 <= n < |effects| && effects[n].Enqueue? && !effects[n].ok;
      OnlyEnqueue(effects, if m < n then m else n, if m < n then n else m);
    }
  }

  /** What a phase that may dispose of the message says about the effects so far. */
  lemma DisposingPhase(service: Service, readCount: nat, command: Command, effects: seq<Effect>)
    requires After(service, readCount, command, effects).Some? && MonotoneSamples(effects)
    ensures var phase := After(service, readCount, command, effects).value;
            && (phase.Completing? ==> Acknowledged(effects))
            && (phase.Failing? ==>
                  && !Acknowledged(effects)
                  && phase.verdict == if JobOf(service, command).Some? then Retryable else Plain)
  {
    PhaseIsEarned(service, readCount, command, effects);
    var phase := After(service, readCount, command, effects).value;
    if phase.Failing? {
      AnswersDoNotFail(service, readCount, command, effects);
      AcknowledgedOnce(service, readCount, command, effects);
      FailingVerdict(service, readCount, command, effects);
    }
  }

  lemma FailingVerdict(service: Service, readCount: nat, command: Command, effects: seq<Effect>)
    requires var phase := After(service, readCount, command, effects);
             phase.Some? && phase.value.Failing? && phase.value.verdict in {Retryable, Plain}
    ensures JobOf(service, command).Some? <==> After(service, readCount, command, effects).value.verdict == Retryable
  {
    PhaseIsEarned(service, readCount, command, effects);
    OneResultOneDisposition(service, readCount, command, effects);
    NoneCounted(effects);
    hide After, JobOf, CountDispositions;
    if Behind(Retryable, effects) {
      var n :| 0 <= n < |effects| && effects[n].Enqueue?;
      NoEnqueue(effects, effects[n]);
    }
  }

  lemma DisposesFrom(service: Service, readCount: nat, phase: Phase, effect: Effect)
    requires Disposes(effect) && Next(service, readCount, phase, effect).Some?
    ensures phase.Rejecting? || phase.Completing? || phase.Requeueing? || phase.Failing?
    ensures phase.Rejecting? ==> effect.Archive?
    ensures phase.Completing? ==> effect.Delete?
    ensures phase.Requeueing? ==> effect.SetVisibility? && effect.delay == 0
    ensures phase.Failing? && BacksOff(service.config, readCount, phase.verdict) ==>
              effect.SetVisibility? && effect.delay == Backoff.Delay(readCount)
    ensures phase.Failing? && !BacksOff(service.config, readCount, phase.verdict) ==> effect.Archive?
  {
    hide Backoff.Delay;
  }

  lemma RejectedExactly(service: Service, command: Command)
    ensures Start(service, command).Rejecting? <==>
              command.contractError != "" || command.messageType != service.config.messageType || command.payload.None?
  {
    hide NewMeshJobSpec, ValidateJobId;
  }

  /**
   The disposition is decided by what the delivery did. A message with a contract
   error, of another type or without a payload is archived at once: no fetch, no
   result. Any other is given back without delay if cancellation was seen, however
   its result fared; or else deleted if a result was acknowledged; or else, if it
   has a job, retried after the backoff within the limit; or else archived.
   */
  lemma DispositionExactly(service: Service, readCount: nat, command: Command, effects: seq<Effect>, n: nat)
    requires After(service, readCount, command, effects).Some? && MonotoneSamples(effects)
    requires n < |effects| && Disposes(effects[n])
    ensures n == |effects| - 1
    ensures DisposedExactly(service, readCount, command, effects)
  {
    FinishedIsFinal(service, readCount, command, effects, n);
    RejectedExactly(service, command);
    var phase := PhaseOf(service, readCount, command, effects, n);
    hide After, Next, Start, JobOf, Backoff.Delay, Acknowledged, MonotoneSamples, Disposed;
    DisposesFrom(service, readCount, phase, effects[n]);
    if phase.Rejecting? {
      RejectingIsFirst(service, readCount, command, effects[..n]);
      BeforeDisposing(service, readCount, command, effects[..n]);
      assert n == |effects[..n]|;
    } else {
      RejectingEnds(service, readCount, command, effects[..n]);
      Decided(service, readCount, command, effects, n, phase);
    }
  }

  lemma MonotonePrefix(effects: seq<Effect>, n: nat)
    requires MonotoneSamples(effects) && n <= |effects|
    ensures MonotoneSamples(effects[..n])
  {
  }

  lemma Decided(service: Service, readCount: nat, command: Command, effects: seq<Effect>, n: nat, phase: Phase)
    requires n == |effects| - 1 && Disposes(effects[n]) && MonotoneSamples(effects)
    requires After(service, readCount, command, effects[..n]) == Some(phase)
    requires Next(service, readCount, phase, effects[n]).Some? && !phase.Rejecting?
    ensures Disposed(service, readCount, command, effects, effects[n])
  {
    var before := effects[..n];
    MonotonePrefix(effects, n);
    DisposesFrom(service, readCount, phase, effects[n]);
    hide After, Next, JobOf, Backoff.Delay, Acknowledged, MonotoneSamples;
    BeforeDisposing(service, readCount, command, before);
    DisposingPhase(service, readCount, command, before);
    assert effects[n - 1] == before[n - 1];
    OneAnswer(effects, n);
    AcknowledgedBefore(effects, n);
  }

  lemma RejectingEnds(service: Service, readCount: nat, command: Command, effects: seq<Effect>)
    requires After(service, readCount, command, effects).Some?
    ensures var phase := After(service, readCount, command, effects).value;
            Start(service, command).Rejecting? ==> phase.Rejecting? || phase.Finished?
  {
    hide Start, Backoff.Delay;
    if Start(service, command).Rejecting? && effects != [] {
      var first := PhaseOf(service, readCount, command, effects, 0);
      assert effects[..0] == [];
      FinishedIsFinal(service, readCount, command, effects, 0);
      assert effects[..1] == effects;
    }
  }
}
