/**
 The mesh job handler (internal/handler/handler.go, pipeline.go, events.go). Each
 method makes its calls in the order of the protocol, and says how far the
 delivery, its progress reports and its work directory have come when it returns.
 */
module Processor {
  import opened Wrappers
  import opened Errors
  import opened Validation
  import opened Events
  import opened Options
  import opened Delivery
  import opened Environment
  import Script
  import WorkDir

  datatype DownloadedSource = DownloadedSource(path: string, size: nat)

  /** How the results of a delivery and its progress reports fit together. */
  ghost predicate ProgressAgrees(effects: seq<Effect>, progress: seq<Progress>) {
    && Reported(progress)
    && forall n :: 0 <= n < |effects| && effects[n].Enqueue? ==>
         match effects[n].outcome
         case Failed(event) => ReportsBefore(event.reason, |progress|)
         case Completed(_) => |progress| == if effects[n].ok then 6 else 5
  }

  /** The answers of the calls account for this result of a delivery that started in this phase. */
  ghost predicate AccountsFor(max: int, start: Phase, log: seq<Script.Entry>, outcome: Outcome) {
    match outcome
    case Completed(_) => start.Working? && Script.Faultless(max, log)
    case Failed(event) =>
      if start.Working? then !Script.Faultless(max, log) && Script.ExplainedBy(max, log, Some(event.reason))
      else event.reason == Rejected
  }

  /**
   How the results of a delivery and the answers of its calls fit together. An
   accepted job is completed exactly when no call reported a failure and its source
   is within the limit; otherwise it fails with the one reason that the answers
   explain. A job that is not accepted is rejected.
   */
  ghost predicate Accounted(service: Service, command: Command, effects: seq<Effect>, log: seq<Script.Entry>) {
    forall n :: 0 <= n < |effects| && effects[n].Enqueue? ==>
      AccountsFor(service.tools.MaxInputBytes(), Start(service, command), log, effects[n].outcome)
  }

  /** The answer behind a result, in the log. */
  lemma AnnouncementOf(effects: seq<Effect>, log: seq<Script.Entry>, n: nat) returns (i: nat)
    requires Told(effects, log) && n < |effects| && effects[n].Enqueue?
    ensures i < |log| && log[i] == Script.Announced(effects[n].outcome, effects[n].ok)
  {
    i :| 0 <= i < |log| && log[i] == Script.Announced(effects[n].outcome, effects[n].ok);
  }

  lemma Announces(max: int, start: Phase, log: seq<Script.Entry>, i: nat)
    requires Script.After(max, Opening(start), log).Some? && i < |log| && log[i].Announced?
    ensures AccountsFor(max, start, log, log[i].outcome)
  {
    hide Script.After, Script.Faultless, Script.ExplainedBy;
    Script.StartedAt(max, Opening(start), log);
    if start.Working? {
      Script.AnnouncedExactly(max, log, i);
    } else {
      Script.RefusedAnnounced(max, log);
    }
  }

  lemma InOrderAccounted(service: Service, readCount: nat, command: Command, effects: seq<Effect>, phase: Phase,
                         log: seq<Script.Entry>, place: Script.Place, cancelled: bool)
    requires InOrder(service, readCount, command, effects, phase, log, place, cancelled)
    ensures Accounted(service, command, effects, log)
  {
    var max, start := service.tools.MaxInputBytes(), Start(service, command);
    forall n: nat | n < |effects| && effects[n].Enqueue? ensures AccountsFor(max, start, log, effects[n].outcome) {
      var i := AnnouncementOf(effects, log, n);
      hide After, Start, Script.After, MonotoneSamples, Told, AccountsFor;
      Announces(max, start, log, i);
    }
  }

  lemma InOrderAgrees(service: Service, readCount: nat, command: Command, effects: seq<Effect>, phase: Phase,
                      log: seq<Script.Entry>, place: Script.Place, cancelled: bool)
    requires InOrder(service, readCount, command, effects, phase, log, place, cancelled) && Script.Concluded(place)
    ensures ProgressAgrees(effects, Script.Reports(log))
  {
    var max, start := service.tools.MaxInputBytes(), Start(service, command);
    Script.ReportsOf(max, Opening(start), log);
    forall n: nat | n < |effects| && effects[n].Enqueue?
      ensures Script.Fits(Script.Announced(effects[n].outcome, effects[n].ok), |Script.Reports(log)|) {
      var i := AnnouncementOf(effects, log, n);
      hide After, Start, Script.After, MonotoneSamples, Told, ReportsBefore, Script.Reports, Script.Fits;
    }
  }

  lemma InOrderCleaned(service: Service, readCount: nat, command: Command, effects: seq<Effect>, phase: Phase,
                       log: seq<Script.Entry>, place: Script.Place, cancelled: bool)
    requires InOrder(service, readCount, command, effects, phase, log, place, cancelled) && Script.Concluded(place)
    ensures Start(service, command).Working? ==> Script.CleanedUp(log)
  {
    hide After, Start, Script.After, MonotoneSamples, Told, Script.CleanedUp;
    if Start(service, command).Working? {
      Script.NeverSilent(service.tools.MaxInputBytes(), log);
      Script.CleanedUpOnce(service.tools.MaxInputBytes(), log);
    }
  }

  lemma Accounts(world: World)
    requires world.Valid() && Script.Concluded(world.place)
    ensures Accounted(world.service, world.command, world.effects, world.log)
    ensures ProgressAgrees(world.effects, Script.Reports(world.log))
    ensures Start(world.service, world.command).Working? ==> Script.CleanedUp(world.log)
  {
    hide InOrder, Accounted, ProgressAgrees, Start, Script.CleanedUp;
    InOrderCleaned(world.service, world.readCount, world.command, world.effects, world.phase, world.log, world.place,
      world.parentCancelled);
    InOrderAccounted(world.service, world.readCount, world.command, world.effects, world.phase, world.log, world.place,
      world.parentCancelled);
    InOrderAgrees(world.service, world.readCount, world.command, world.effects, world.phase, world.log, world.place,
      world.parentCancelled);
  }

  function PipelineFailed(reason: FailureReason, cause: Error): Error {
    PipelineFailure(reason, Wrapped(cause))
  }

  function PipelineRejected(): Error {
    PipelineFailure(Rejected, Foreign(None, None, None))
  }

  /** A failure of the pipeline for this reason, which may be published in this phase. */
  ghost predicate FailsWith(tools: Tools, phase: Phase, job: Job, reason: FailureReason, error: Error) {
    && PipelineFailureReason(error) == reason && !IsTerminalResult(Some(error))
    && MayPublish(tools, phase, Failed(NewFailEvent(job, reason)))
  }

  /** What a part of the pipeline failed with, if it did. */
  function ReasonOf<T>(r: Result<T, Error>): Option<FailureReason> {
    if r.Success? then None else Some(PipelineFailureReason(r.error))
  }

  /** Where a part of the pipeline stands tells its outcome, and the log explains it. */
  lemma TellsOutcome<T>(tools: Tools, log: seq<Script.Entry>, place: Script.Place, r: Result<T, Error>)
    requires Explained(tools.MaxInputBytes(), log, place)
    requires if r.Success? then place.Running? else place.Halted? && PipelineFailureReason(r.error) == place.reason
    ensures Script.ExplainedBy(tools.MaxInputBytes(), log, ReasonOf(r))
  {
  }

  lemma FailsEarly(tools: Tools, phase: Phase, reason: FailureReason, cause: Error)
    requires phase.Working? && Unmarked(cause) && reason in {Internal, SourceNotFound, DownloadFailed}
    ensures FailsWith(tools, phase, phase.job, reason, PipelineFailed(reason, cause))
    ensures PipelineFailureReason(PipelineFailed(reason, cause)) == reason
  {
    UnmarkedIsPlain(cause);
  }

  lemma RejectsEarly(tools: Tools, phase: Phase)
    requires phase.Working? || (phase.Fetched? && |phase.source| > tools.MaxInputBytes())
    ensures FailsWith(tools, phase, phase.job, Rejected, PipelineRejected())
    ensures PipelineFailureReason(PipelineRejected()) == Rejected
  {
  }

  lemma FailsFetched(tools: Tools, phase: Phase, cause: Error)
    requires phase.Fetched? && Unmarked(cause)
    ensures FailsWith(tools, phase, phase.job, DownloadFailed, PipelineFailed(DownloadFailed, cause))
    ensures PipelineFailureReason(PipelineFailed(DownloadFailed, cause)) == DownloadFailed
    ensures |phase.source| <= tools.MaxInputBytes() ==>
              FailsWith(tools, phase, phase.job, OptimizationFailed, PipelineFailed(OptimizationFailed, cause))
  {
    UnmarkedIsPlain(cause);
  }

  lemma FailsUpload(tools: Tools, job: Job, cause: Error)
    requires Unmarked(cause)
    ensures FailsWith(tools, Doomed(job, UploadFailed), job, UploadFailed, PipelineFailed(UploadFailed, cause))
  {
    UnmarkedIsPlain(cause);
  }

  /** What comes of inspecting and optimizing a fetched source. */
  ghost predicate Produced(tools: Tools, phase: Phase, dir: string, place: Script.Place, files: map<string, Bytes>,
                           outputPath: string, r: Result<PipelineResult, Error>)
    requires phase.Fetched?
  {
    match r
    case Failure(error) =>
      place.Halted? && place.dir == dir && place.reason == OptimizationFailed
      && FailsWith(tools, phase, phase.job, OptimizationFailed, error)
    case Success(result) =>
      var output := tools.optimize(phase.source, phase.spec.options);
      && place == Script.Running(13, dir) && outputPath in files && files[outputPath] == output
      && result == ResultFrom(tools, phase.source, output)
  }

  lemma FailedToProduce(tools: Tools, phase: Phase, dir: string, place: Script.Place, log: seq<Script.Entry>,
                        files: map<string, Bytes>, outputPath: string, cause: Error)
    requires Unmarked(cause) && phase.Fetched? && |phase.source| <= tools.MaxInputBytes()
    requires place.Halted? && place.dir == dir && place.reason == OptimizationFailed
    requires Explained(tools.MaxInputBytes(), log, place)
    ensures var r := Result<PipelineResult, Error>.Failure(PipelineFailed(OptimizationFailed, cause));
            && Produced(tools, phase, dir, place, files, outputPath, r)
            && Script.ExplainedBy(tools.MaxInputBytes(), log, ReasonOf(r))
  {
    FailsFetched(tools, phase, cause);
  }

  lemma HasProduced(tools: Tools, phase: Phase, dir: string, log: seq<Script.Entry>, files: map<string, Bytes>,
                    outputPath: string, result: PipelineResult)
    requires phase.Fetched? && outputPath in files && files[outputPath] == tools.optimize(phase.source, phase.spec.options)
    requires result == ResultFrom(tools, phase.source, files[outputPath])
    requires Explained(tools.MaxInputBytes(), log, Script.Running(13, dir))
    ensures var r := Result<PipelineResult, Error>.Success(result);
            && Produced(tools, phase, dir, Script.Running(13, dir), files, outputPath, r)
            && Script.ExplainedBy(tools.MaxInputBytes(), log, ReasonOf(r))
  {
  }

  lemma WrappedVerdict(cause: Error)
    requires !IsTerminalResult(Some(cause))
    ensures VerdictOf(Some(ResultPublishError(Wrapped(cause)))) == Retryable
  {
    assert FirstAnswer(OwnTerminal, Wrapped(cause)) == FirstAnswer(OwnTerminal, cause);
  }

  /** A delivery of a job starts with the work on it, or with its rejection. */
  lemma StartOfJob(service: Service, command: Command)
    requires JobOf(service, command).Some?
    ensures var job := JobOf(service, command).value;
            Start(service, command) == match NewMeshJobSpec(service.tools.checks, job)
                                       case Failure(_) => Doomed(job, Rejected)
                                       case Success(spec) => Working(job, spec)
  {
    hide NewMeshJobSpec, ValidateJobId;
  }

  lemma RejectedAtOnce(tools: Tools, job: Job)
    ensures !IsTerminalResult(Some(Foreign(None, None, None)))
    ensures MayPublish(tools, Doomed(job, Rejected), Failed(NewFailEvent(job, Rejected)))
  {
  }

  lemma StoredMayPublish(tools: Tools, phase: Phase)
    requires phase.Stored?
    ensures var output := tools.optimize(phase.source, phase.spec.options);
            MayPublish(tools, phase, Completed(NewCompleteEvent(phase.job, phase.spec, ResultFrom(tools, phase.source, output))))
  {
  }

  lemma StartOfBody(service: Service, command: Command)
    requires ContractValid(service.config, command)
    ensures var job := service.tools.decode(command.payload.value);
            if job.None? || ValidateJobId(service.tools.checks, job.value).Some? then Start(service, command) == Returned(Plain)
            else JobOf(service, command) == job
  {
    hide NewMeshJobSpec, ValidateJobId;
  }

  lemma PlainErrors()
    ensures VerdictOf(Some(Foreign(None, None, None))) == VerdictOf(Some(Wrapped(Foreign(None, None, None)))) == Plain
  {
  }

  class Processor {
    const tools: Tools
    const world: World

    constructor (world: World, tools: Tools)
      requires tools == world.service.tools
      ensures Valid() && this.world == world
    {
      this.world, this.tools := world, tools;
    }

    ghost predicate Valid() {
      tools == world.service.tools
    }

    /**
     The log then says why: rejected only by a recorded size above the limit, not found
     exactly when the lookup failed, not downloaded exactly when the download or the
     stat failed, and success exactly when all three went well within the limit.
     */
    method DownloadSource(job: Job, spec: Spec, workDir: string) returns (r: Result<DownloadedSource, Error>)
      requires Valid() && world.Valid() && world.phase == Working(job, spec) && world.place == Script.Running(1, workDir)
      modifies world
      ensures world.Valid() && (old(world.jobDone) ==> world.jobDone)
      ensures Explained(tools.MaxInputBytes(), world.log, world.place)
      ensures Script.ExplainedBy(tools.MaxInputBytes(), world.log, ReasonOf(r))
      ensures world.files.Keys <= old(world.files.Keys) + {WorkDir.Joined(workDir, "source.glb")}
      ensures r.Success? ==>
                && world.place == Script.Running(5, workDir)
                && world.phase.Fetched? && world.phase.job == job && world.phase.spec == spec
                && r.value.path in world.files && world.phase.source == world.files[r.value.path]
                && r.value.size == |world.phase.source| <= tools.MaxInputBytes()
      ensures r.Failure? ==>
                && world.place.Halted? && world.place.dir == workDir
                && FailsWith(tools, world.phase, job, world.place.reason, r.error)
    {
      hide World.Valid, Explained, Script.ExplainedBy, Script.FailureIn, ReasonOf, PipelineFailureReason, FailsWith, MayPublish,
        PipelineFailed, PipelineRejected, WorkDir.Joined;
      world.PublishProgress(DOWNLOAD_STARTED);
      var remoteSize := world.GetObjectSize(spec.sourceKey);
      if remoteSize.Failure? {
        FailsEarly(tools, world.phase, SourceNotFound, remoteSize.error);
        r := Failure(PipelineFailed(SourceNotFound, remoteSize.error));
        TellsOutcome(tools, world.log, world.place, r);
        return;
      }
      if remoteSize.value > tools.MaxInputBytes() {
        RejectsEarly(tools, world.phase);
        r := Failure(PipelineRejected());
        TellsOutcome(tools, world.log, world.place, r);
        return;
      }
      var inputPath := WorkDir.Joined(workDir, "source.glb");
      var error := world.Download(spec.sourceKey, inputPath);
      if error.Some? {
        FailsEarly(tools, world.phase, DownloadFailed, error.value);
        r := Failure(PipelineFailed(DownloadFailed, error.value));
        TellsOutcome(tools, world.log, world.place, r);
        return;
      }
      var inputSize := world.StatFile(inputPath);
      if inputSize.Failure? {
        FailsFetched(tools, world.phase, inputSize.error);
        r := Failure(PipelineFailed(DownloadFailed, inputSize.error));
        TellsOutcome(tools, world.log, world.place, r);
        return;
      }
      if inputSize.value > tools.MaxInputBytes() {
        RejectsEarly(tools, world.phase);
        r := Failure(PipelineRejected());
        TellsOutcome(tools, world.log, world.place, r);
        return;
      }
      r := Success(DownloadedSource(inputPath, inputSize.value));
      TellsOutcome(tools, world.log, world.place, r);
    }

    /** Everything of `optimizeSource` up to the upload; the optimization failed exactly when one of its calls did. */
    method ProduceOutput(job: Job, options: Options, source: DownloadedSource, outputPath: string, ghost workDir: string)
      returns (r: Result<PipelineResult, Error>)
      requires Valid() && world.Valid() && world.place == Script.Running(5, workDir)
      requires world.phase.Fetched? && world.phase.job == job && world.phase.spec.options == options
      requires source.path in world.files && world.phase.source == world.files[source.path]
      requires source.size == |world.phase.source| <= tools.MaxInputBytes()
      modifies world
      ensures unchanged(world`phase, world`effects)
      ensures world.Valid() && (old(world.jobDone) ==> world.jobDone)
      ensures Explained(tools.MaxInputBytes(), world.log, world.place)
      ensures Script.ExplainedBy(tools.MaxInputBytes(), world.log, ReasonOf(r))
      ensures world.files.Keys <= old(world.files.Keys) + {outputPath}
      ensures Produced(tools, world.phase, workDir, world.place, world.files, outputPath, r)
    {
      hide World.Valid, Explained, Script.ExplainedBy, Script.Reports, Produced, PipelineFailureReason, ReasonOf;
      ghost var phase := world.phase;
      world.PublishProgress(ANALYSIS_STARTED);
      var before := world.Inspect(tools, source.path);
      if before.Failure? {
        FailedToProduce(tools, phase, workDir, world.place, world.log, world.files, outputPath, before.error);
        return Failure(PipelineFailed(OptimizationFailed, before.error));
      }
      world.PublishProgress(OPTIMIZATION_STARTED);
      var failure := world.Optimize(tools, source.path, outputPath, options);
      if failure.Some? {
        FailedToProduce(tools, phase, workDir, world.place, world.log, world.files, outputPath, failure.value);
        return Failure(PipelineFailed(OptimizationFailed, failure.value));
      }
      world.PublishProgress(OUTPUT_ANALYSIS_STARTED);
      var after := world.Inspect(tools, outputPath);
      if after.Failure? {
        FailedToProduce(tools, phase, workDir, world.place, world.log, world.files, outputPath, after.error);
        return Failure(PipelineFailed(OptimizationFailed, after.error));
      }
      var outputSize := world.StatFile(outputPath);
      if outputSize.Failure? {
        FailedToProduce(tools, phase, workDir, world.place, world.log, world.files, outputPath, outputSize.error);
        return Failure(PipelineFailed(OptimizationFailed, outputSize.error));
      }
      var outputSha256 := world.HashFile(tools, outputPath);
      if outputSha256.Failure? {
        FailedToProduce(tools, phase, workDir, world.place, world.log, world.files, outputPath, outputSha256.error);
        return Failure(PipelineFailed(OptimizationFailed, outputSha256.error));
      }
      r := Success(PipelineResult(before.value, after.value, source.size, outputSize.value, outputSha256.value));
      HasProduced(tools, phase, workDir, world.log, world.files, outputPath, r.value);
    }

    method OptimizeSource(job: Job, spec: Spec, workDir: string, source: DownloadedSource)
      returns (r: Result<PipelineResult, Error>)
      requires Valid() && world.Valid() && world.place == Script.Running(5, workDir)
      requires world.phase.Fetched? && world.phase.job == job && world.phase.spec == spec
      requires source.path in world.files && world.phase.source == world.files[source.path]
      requires source.size == |world.phase.source| <= tools.MaxInputBytes()
      modifies world
      ensures world.Valid() && (old(world.jobDone) ==> world.jobDone)
      ensures Explained(tools.MaxInputBytes(), world.log, world.place)
      ensures Script.ExplainedBy(tools.MaxInputBytes(), world.log, ReasonOf(r))
      ensures world.files.Keys <= old(world.files.Keys) + {WorkDir.Joined(workDir, "optimized.glb")}
      ensures r.Success? ==>
                && world.place == Script.Running(15, workDir)
                && world.phase == Stored(job, spec, old(world.phase).source)
                && r.value == ResultFrom(tools, old(world.phase).source, tools.optimize(old(world.phase).source, spec.options))
      ensures r.Failure? ==>
                && world.place.Halted? && world.place.dir == workDir
                && FailsWith(tools, world.phase, job, world.place.reason, r.error)
    {
      hide World.Valid, Script.ExplainedBy, Script.Reports, FailsWith, PipelineFailureReason, WorkDir.Joined;
      var outputPath := WorkDir.Joined(workDir, "optimized.glb");
      r := ProduceOutput(job, spec.options, source, outputPath, workDir);
      if r.Failure? {
        return;
      }
      world.PublishProgress(UPLOAD_STARTED);
      var failure := world.Upload(spec.outputKey, outputPath, GetMimeType(spec.outputTarget));
      if failure.Some? {
        FailsUpload(tools, job, failure.value);
        return Failure(PipelineFailed(UploadFailed, failure.value));
      }
    }

    /**
     Every directory that was created is cleaned up, on every path; the answers explain
     the reason of a failure, and a success has none.
     */
    method RunPipeline(job: Job, spec: Spec) returns (r: Result<PipelineResult, Error>)
      requires Valid() && world.Valid() && world.phase == Working(job, spec) && world.place == Script.BEGIN
      modifies world
      ensures world.Valid() && (old(world.jobDone) ==> world.jobDone)
      ensures Explained(tools.MaxInputBytes(), world.log, world.place)
      ensures Script.ExplainedBy(tools.MaxInputBytes(), world.log, ReasonOf(r))
      ensures world.place.Closed? && world.place.failure == ReasonOf(r)
      ensures r.Success? ==>
                && world.phase.Stored? && world.phase.job == job && world.phase.spec == spec
                && r.value == ResultFrom(tools, world.phase.source, tools.optimize(world.phase.source, spec.options))
      ensures r.Failure? ==> FailsWith(tools, world.phase, job, PipelineFailureReason(r.error), r.error)
    {
      hide World.Valid, Script.ExplainedBy, Script.Reports, MayPublish, IsTerminalResult, WorkDir.Joined;
      var workDir := world.CreateJobWorkDir(spec.jobId);
      if workDir.Failure? {
        FailsEarly(tools, world.phase, Internal, workDir.error);
        return Failure(PipelineFailed(Internal, workDir.error));
      }
      var source := DownloadSource(job, spec, workDir.value);
      if source.Failure? {
        r := Failure(source.error);
      } else {
        r := OptimizeSource(job, spec, workDir.value, source.value);
      }
      world.CleanupJobWorkDir(workDir.value);
    }

    method PublishFail(job: Job, reason: FailureReason, cause: Error) returns (error: Error)
      requires Valid() && world.Valid() && (world.place == Script.Refused || world.place.Closed?)
      requires Script.FailureIn(world.place) == Some(reason) && !IsTerminalResult(Some(cause))
      requires MayPublish(tools, world.phase, Failed(NewFailEvent(job, reason)))
      modifies world
      ensures world.Valid() && world.phase == Returned(VerdictOf(Some(error)))
      ensures world.place.Answered? && world.place.failure == Some(reason) && Script.Concluded(world.place)
      ensures Accounted(world.service, world.command, world.effects, world.log)
      ensures Start(world.service, world.command).Working? ==> Script.CleanedUp(world.log)
      ensures ProgressAgrees(world.effects, Script.Reports(world.log))
      ensures if world.place.ok then error == TerminalResultError(cause) else error == ResultPublishError(Wrapped(cause))
      ensures old(world.jobDone) ==> VerdictOf(Some(error)) == Retryable
    {
      hide World.Valid, Start, Script.CleanedUp, Script.FailureIn, Script.Reports, MayPublish, IsTerminalResult, VerdictOf,
        ProgressAgrees, Accounted;
      var failure := world.Enqueue(Failed(NewFailEvent(job, reason)));
      Accounts(world);
      if failure.Some? {
        WrappedVerdict(cause);
        return ResultPublishError(Wrapped(cause));
      }
      VerdictExactly(cause);
      return TerminalResultError(cause);
    }

    method PublishComplete(job: Job, spec: Spec, result: PipelineResult) returns (error: Option<Error>)
      requires Valid() && world.Valid() && world.place.Closed? && world.place.failure.None?
      requires MayPublish(tools, world.phase, Completed(NewCompleteEvent(job, spec, result)))
      modifies world
      ensures world.Valid() && world.phase == Returned(VerdictOf(error))
      ensures world.place.Answered? && world.place.failure.None? && Script.Concluded(world.place)
      ensures Accounted(world.service, world.command, world.effects, world.log)
      ensures Start(world.service, world.command).Working? ==> Script.CleanedUp(world.log)
      ensures ProgressAgrees(world.effects, Script.Reports(world.log))
      ensures if world.place.ok then error.None? else error.Some? && error.value.ResultPublishError?
      ensures old(world.jobDone) ==> VerdictOf(error) == Retryable
    {
      hide World.Valid, Start, Script.CleanedUp, Script.Reports, MayPublish, IsTerminalResult, ProgressAgrees, Accounted;
      var failure := world.Enqueue(Completed(NewCompleteEvent(job, spec, result)));
      if failure.Some? {
        UnmarkedIsPlain(failure.value);
        WrappedVerdict(failure.value);
        Accounts(world);
        return Some(ResultPublishError(Wrapped(failure.value)));
      }
      world.PublishProgress(OPTIMIZATION_COMPLETED);
      Accounts(world);
      return None;
    }

    method ProcessJob(job: Job) returns (error: Option<Error>)
      requires Valid() && world.Valid() && world.place == Opening(world.phase)
      requires JobOf(world.service, world.command) == Some(job) && world.phase == Start(world.service, world.command)
      modifies world
      ensures world.Valid() && world.phase == Returned(VerdictOf(error)) && Script.Concluded(world.place)
      ensures Accounted(world.service, world.command, world.effects, world.log)
      ensures ProgressAgrees(world.effects, Script.Reports(world.log))
      ensures Start(world.service, world.command).Working? ==> Script.CleanedUp(world.log)
      ensures old(world.jobDone) ==> VerdictOf(error) == Retryable
    {
      StartOfJob(world.service, world.command);
      hide Start, JobOf, NewMeshJobSpec, World.Valid, Script.ExplainedBy, Script.Reports, Script.Concluded, MayPublish,
        ProgressAgrees, Accounted, VerdictOf, IsTerminalResult, PipelineFailureReason, Explained, Script.CleanedUp;
      var spec := NewMeshJobSpec(tools.checks, job);
      if spec.Failure? {
        RejectedAtOnce(tools, job);
        var failure := PublishFail(job, Rejected, Foreign(None, None, None));
        return Some(failure);
      }
      var result := RunPipeline(job, spec.value);
      if result.Failure? {
        var failure := PublishFail(job, PipelineFailureReason(result.error), result.error);
        return Some(failure);
      }
      StoredMayPublish(tools, world.phase);
      error := PublishComplete(job, spec.value, result.value);
    }

    /** The handler: whatever happens, the error it returns says exactly what was published. */
    method HandleMeshJob(body: Bytes) returns (error: Option<Error>)
      requires Valid() && world.Valid() && world.phase == Start(world.service, world.command)
      requires world.effects == [] && world.log == [] && world.place == Opening(world.phase)
      requires ContractValid(world.service.config, world.command) && world.command.payload == Some(body)
      modifies world
      ensures world.Valid() && world.phase == Returned(VerdictOf(error)) && Script.Concluded(world.place)
      ensures Accounted(world.service, world.command, world.effects, world.log)
      ensures ProgressAgrees(world.effects, Script.Reports(world.log))
      ensures Start(world.service, world.command).Working? ==> Script.CleanedUp(world.log)
      ensures old(world.jobDone) ==> VerdictOf(error) in {Retryable, Plain}
    {
      StartOfBody(world.service, world.command);
      PlainErrors();
      hide Start, JobOf, World.Valid, ValidateJobId, ProgressAgrees, Accounted, VerdictOf, Script.Reports, Script.CleanedUp;
      var foreign := Foreign(None, None, None);
      var job := tools.decode(body);
      if job.None? {
        Accounts(world);
        return Some(Wrapped(foreign));
      }
      if ValidateJobId(tools.checks, job.value).Some? {
        Accounts(world);
        return Some(foreign);
      }
      error := ProcessJob(job.value);
    }
  }
}
