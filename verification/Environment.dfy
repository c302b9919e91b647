/**
 What a delivery can call, as a monitor: every call is recorded, and may be made
 only where the protocol of module Delivery and the order of module Script have it.
 Calls succeed or fail at the environment's choice; cancellation can strike before
 any of them.
 */
module Environment {
  import opened Wrappers
  import opened Errors
  import opened Validation
  import opened Options
  import opened Events
  import opened InspectReport
  import opened Delivery
  import Script

  /** What the handler is asked to do: nothing, to refuse a job, or to work on it. */
  function Opening(phase: Phase): Script.Place {
    if phase.Working? then Script.BEGIN else if phase.Doomed? then Script.Refused else Script.Silent
  }

  /** Every result that goes out is in the log. */
  ghost predicate Told(effects: seq<Effect>, log: seq<Script.Entry>) {
    forall n :: 0 <= n < |effects| && effects[n].Enqueue? ==> Script.Announced(effects[n].outcome, effects[n].ok) in log
  }

  /** The recorded effects and calls are in order, and no sample forgets a cancellation. */
  ghost predicate InOrder(service: Service, readCount: nat, command: Command, effects: seq<Effect>, phase: Phase,
                          log: seq<Script.Entry>, place: Script.Place, cancelled: bool) {
    && After(service, readCount, command, effects) == Some(phase)
    && MonotoneSamples(effects)
    && (Sample(true) in effects ==> cancelled)
    && Script.After(service.tools.MaxInputBytes(), Opening(Start(service, command)), log) == Some(place)
    && Told(effects, log)
  }

  lemma RecordedInOrder(service: Service, readCount: nat, command: Command, effects: seq<Effect>, phase: Phase,
                        log: seq<Script.Entry>, place: Script.Place, cancelled: bool, effect: Effect)
    requires InOrder(service, readCount, command, effects, phase, log, place, cancelled)
    requires Next(service, readCount, phase, effect).Some?
    requires effect.Sample? ==> effect.cancelled == cancelled
    requires effect.Enqueue? ==> Script.Announced(effect.outcome, effect.ok) in log
    ensures InOrder(service, readCount, command, effects + [effect],
                    Next(service, readCount, phase, effect).value, log, place, cancelled)
  {
    hide Next, After, Script.After, Start, Opening;
    AfterSnoc(service, readCount, command, effects, effect);
    ToldMore(effects, log, effect);
    hide Told;
  }

  lemma NotedInOrder(service: Service, readCount: nat, command: Command, effects: seq<Effect>, phase: Phase,
                     log: seq<Script.Entry>, place: Script.Place, cancelled: bool, entry: Script.Entry)
    requires InOrder(service, readCount, command, effects, phase, log, place, cancelled)
    requires Script.Next(service.tools.MaxInputBytes(), place, entry).Some?
    ensures InOrder(service, readCount, command, effects, phase, log + [entry],
                    Script.Next(service.tools.MaxInputBytes(), place, entry).value, cancelled)
  {
    hide Next, After, Script.After, Script.Next, Start, Opening, MonotoneSamples;
    Script.AfterSnoc(service.tools.MaxInputBytes(), Opening(Start(service, command)), log, entry);
    ToldStill(effects, log, entry);
    hide Told;
  }

  /**
   While the pipeline runs and until its result is announced, the answers in the log
   explain the failure it stands at and no other, and its reports are those that come
   before this point; when it has ended, its directory has been cleaned up once.
   */
  ghost predicate Explained(max: int, log: seq<Script.Entry>, place: Script.Place) {
    place.Running? || place.Halted? || place.Closed? ==>
      && Script.ExplainedBy(max, log, Script.FailureIn(place))
      && Reported(Script.Reports(log)) && |Script.Reports(log)| == Script.ReportsAt(place)
      && (place.Closed? ==> Script.CleanedUp(log))
  }

  lemma InOrderExplained(service: Service, readCount: nat, command: Command, effects: seq<Effect>, phase: Phase,
                         log: seq<Script.Entry>, place: Script.Place, cancelled: bool)
    requires InOrder(service, readCount, command, effects, phase, log, place, cancelled)
    ensures Explained(service.tools.MaxInputBytes(), log, place)
  {
    hide Script.ExplainedBy, Script.FailureIn, Script.After, Script.Reports, Script.ReportsAt, Script.CleanedUp,
      After, Start, MonotoneSamples, Told;
    var max := service.tools.MaxInputBytes();
    Script.StartedAt(max, Opening(Start(service, command)), log);
    if place.Running? || place.Halted? || place.Closed? {
      Script.ReasonExactly(max, log);
      Script.ReportsCounted(max, log);
      if place.Closed? {
        Script.CleanedUpOnce(max, log);
      }
    }
  }

  lemma ToldMore(effects: seq<Effect>, log: seq<Script.Entry>, effect: Effect)
    requires Told(effects, log) && (effect.Enqueue? ==> Script.Announced(effect.outcome, effect.ok) in log)
    ensures Told(effects + [effect], log)
  {
  }

  lemma ToldStill(effects: seq<Effect>, log: seq<Script.Entry>, entry: Script.Entry)
    requires Told(effects, log)
    ensures Told(effects, log + [entry])
  {
  }

  class World {
    ghost const service: Service
    ghost const readCount: nat
    ghost const command: Command

    ghost var phase: Phase
    ghost var effects: seq<Effect>
    ghost var place: Script.Place
    ghost var log: seq<Script.Entry>
    var files: map<string, Bytes>
    var parentCancelled: bool
    var jobDone: bool

    constructor (ghost service: Service, ghost readCount: nat, ghost command: Command)
      ensures Valid() && this.service == service && this.readCount == readCount && this.command == command
      ensures phase == Start(service, command) && effects == []
      ensures place == Opening(phase) && log == []
    {
      this.service, this.readCount, this.command := service, readCount, command;
      phase, effects := Start(service, command), [];
      place, log := Opening(Start(service, command)), [];
      files, parentCancelled, jobDone := map[], false, false;
    }

    ghost function Limit(): nat {
      service.tools.MaxInputBytes()
    }

    ghost predicate Valid()
      reads this
    {
      && InOrder(service, readCount, command, effects, phase, log, place, parentCancelled)
      && (parentCancelled ==> jobDone)
    }

    ghost function LastEffect(): Effect
      reads this
      requires effects != []
    {
      effects[|effects| - 1]
    }

    /** One effect has been added. */
    twostate predicate Added()
      reads this
    {
      effects != [] && effects[..|effects| - 1] == old(effects)
    }

    /** One call has been added. */
    twostate predicate Called(entry: Script.Entry)
      reads this
    {
      log == old(log) + [entry]
    }

    ghost method Record(effect: Effect)
      requires Valid() && Next(service, readCount, phase, effect).Some?
      requires effect.Sample? ==> effect.cancelled == parentCancelled
      requires effect.Enqueue? ==> Script.Announced(effect.outcome, effect.ok) in log
      modifies this
      ensures unchanged(`place, `log, `files, `parentCancelled, `jobDone)
      ensures Valid()
      ensures effects == old(effects) + [effect]
      ensures Some(phase) == Next(service, readCount, old(phase), effect)
    {
      RecordedInOrder(service, readCount, command, effects, phase, log, place, parentCancelled, effect);
      hide Next, InOrder;
      phase, effects := Next(service, readCount, phase, effect).value, effects + [effect];
    }

    ghost method Note(entry: Script.Entry)
      requires Valid() && Script.Next(Limit(), place, entry).Some?
      modifies this
      ensures unchanged(`phase, `effects, `files, `parentCancelled, `jobDone)
      ensures Valid() && Explained(Limit(), log, place)
      ensures Called(entry)
      ensures Some(place) == Script.Next(Limit(), old(place), entry)
    {
      NotedInOrder(service, readCount, command, effects, phase, log, place, parentCancelled, entry);
      hide Script.Next, InOrder, Explained;
      place, log := Script.Next(Limit(), place, entry).value, log + [entry];
      InOrderExplained(service, readCount, command, effects, phase, log, place, parentCancelled);
    }

    /** Cancellation and the job's deadline can come at any moment, and stay. */
    method Elapse()
      requires Valid()
      modifies this
      ensures unchanged(`phase, `effects, `place, `log, `files)
      ensures Valid()
      ensures old(parentCancelled) ==> parentCancelled
      ensures old(jobDone) ==> jobDone
    {
      var cancelled: bool, expired: bool := *, *;
      parentCancelled := parentCancelled || cancelled;
      jobDone := jobDone || expired || parentCancelled;
    }

    method NewError() returns (error: Error)
      ensures Unmarked(error)
    {
      error := Foreign(None, None, None);
    }

    // ----- the handler's calls -----

    /** The pipeline has come to this call of it. */
    ghost predicate Reached(step: nat)
      reads this
    {
      place.Running? && place.step == step
    }

    method CreateJobWorkDir(jobId: string) returns (r: Result<string, Error>)
      requires Valid() && Reached(0) && phase.Working? && jobId == phase.spec.jobId
      modifies this
      ensures unchanged(`phase, `effects, `files)
      ensures Valid() && Explained(Limit(), log, place) && (old(jobDone) ==> jobDone)
      ensures Called(Script.Made(if r.Success? then Some(r.value) else None))
      ensures place == if r.Success? then Script.Running(1, r.value) else Script.Closed(0, Some(Internal))
      ensures r.Success? ==> r.value != ""
      ensures r.Failure? ==> Unmarked(r.error)
    {
      hide Script.Next, Script.FailureIn, Valid, Explained;
      Elapse();
      var path: string, failed: bool := *, *;
      Script.MadeNext(Limit(), place.dir, if failed || path == "" then None else Some(path));
      if failed || path == "" {
        Note(Script.Made(None));
        var error := NewError();
        return Failure(error);
      }
      Note(Script.Made(Some(path)));
      return Success(path);
    }

    method CleanupJobWorkDir(path: string)
      requires Valid() && (Reached(15) || place.Halted?) && path == place.dir
      modifies this
      ensures unchanged(`phase, `effects, `files)
      ensures Valid() && Explained(Limit(), log, place) && (old(jobDone) ==> jobDone)
      ensures Called(Script.Cleaned(path))
      ensures place == Script.Closed(old(place).step, Script.FailureIn(old(place)))
    {
      hide Script.Next, Script.Then, Script.FailureIn, Valid, Explained;
      Elapse();
      Script.CleanedNext(Limit(), place);
      Note(Script.Cleaned(path));
    }

    /** A progress signal; whether it arrives makes no difference to anyone here. */
    method PublishProgress(entry: Progress)
      requires Valid() && Script.Due(place) == Some(entry)
      modifies this
      ensures unchanged(`phase, `effects, `files)
      ensures Valid() && Explained(Limit(), log, place) && (old(jobDone) ==> jobDone)
      ensures Called(Script.Signalled(entry))
      ensures place == if old(place).Running? then Script.Running(old(place).step + 1, old(place).dir)
                       else old(place).(reported := true)
    {
      hide Script.Next, Script.Then, Script.FailureIn, Valid, Explained;
      Elapse();
      Script.SignalledNext(Limit(), place);
      Note(Script.Signalled(entry));
    }

    method GetObjectSize(key: string) returns (r: Result<int, Error>)
      requires Valid() && Reached(2) && phase.Working? && key == phase.spec.sourceKey
      modifies this
      ensures unchanged(`phase, `effects, `files)
      ensures Valid() && Explained(Limit(), log, place) && (old(jobDone) ==> jobDone)
      ensures Called(Script.Asked(if r.Success? then Some(r.value) else None))
      ensures place == Script.Then(2, old(place).dir, r.Success? && r.value <= Limit(),
                                   if r.Success? then Rejected else SourceNotFound)
      ensures r.Failure? ==> Unmarked(r.error)
    {
      hide Script.Next, Script.Then, Script.FailureIn, Valid, Explained;
      Elapse();
      var size: int, failed: bool := *, *;
      Script.AskedNext(Limit(), place.dir, if failed then None else Some(size));
      Note(Script.Asked(if failed then None else Some(size)));
      var error := NewError();
      r := if failed then Failure(error) else Success(size);
    }

    method Download(key: string, path: string) returns (error: Option<Error>)
      requires Valid() && Reached(3) && phase.Working? && key == phase.spec.sourceKey
      modifies this
      ensures Valid() && Explained(Limit(), log, place) && (old(jobDone) ==> jobDone)
      ensures files.Keys <= old(files.Keys) + {path}
      ensures error.None? ==> path in files && phase == Fetched(old(phase).job, old(phase).spec, files[path])
      ensures error.Some? ==> phase == old(phase) && effects == old(effects) && Unmarked(error.value)
      ensures effects == old(effects) + if error.None? then [Fetch(key, files[path])] else []
      ensures Called(Script.Downloaded(error.None?))
      ensures place == Script.Then(old(place).step, old(place).dir, error.None?, DownloadFailed)
    {
      hide Script.Next, Script.Then, Script.FailureIn, InOrder, Explained;
      Elapse();
      var content: Bytes, failed: bool := *, *;
      Script.DownloadedNext(Limit(), place.dir, !failed);
      Note(Script.Downloaded(!failed));
      if failed {
        var foreign := NewError();
        return Some(foreign);
      }
      files := files[path := content];
      Record(Fetch(key, content));
      return None;
    }

    /** The size of the source is asked for after the download, that of the output after its inspection. */
    method StatFile(path: string) returns (r: Result<nat, Error>)
      requires Valid() && (Reached(4) || Reached(11))
      modifies this
      ensures unchanged(`phase, `effects, `files)
      ensures Valid() && Explained(Limit(), log, place) && (old(jobDone) ==> jobDone)
      ensures r.Success? ==> path in files && r.value == |files[path]|
      ensures r.Failure? ==> Unmarked(r.error)
      ensures Called(Script.Statted(if r.Success? then Some(r.value) else None))
      ensures old(Reached(4)) ==>
                place == Script.Then(4, old(place).dir, r.Success? && r.value <= Limit(),
                                     if r.Success? then Rejected else DownloadFailed)
      ensures old(Reached(11)) ==> place == Script.Then(11, old(place).dir, r.Success?, OptimizationFailed)
    {
      hide Script.Next, Script.Then, Script.FailureIn, Valid, Explained;
      Elapse();
      var failed: bool := *;
      failed := failed || path !in files;
      Script.StattedNext(Limit(), place.dir, if failed then None else Some(|files[path]|));
      Note(Script.Statted(if failed then None else Some(|files[path]|)));
      var error := NewError();
      r := if failed then Failure(error) else Success(|files[path]|);
    }

    method HashFile(tools: Tools, path: string) returns (r: Result<Bytes, Error>)
      requires Valid() && Reached(12)
      modifies this
      ensures unchanged(`phase, `effects, `files)
      ensures Valid() && Explained(Limit(), log, place) && (old(jobDone) ==> jobDone)
      ensures r.Success? ==> path in files && r.value == tools.sha256(files[path])
      ensures r.Failure? ==> Unmarked(r.error)
      ensures Called(Script.Hashed(r.Success?))
      ensures place == Script.Then(old(place).step, old(place).dir, r.Success?, OptimizationFailed)
    {
      hide Script.Next, Script.Then, Script.FailureIn, Valid, Explained;
      Elapse();
      var failed: bool := *;
      failed := failed || path !in files;
      Script.HashedNext(Limit(), place.dir, !failed);
      Note(Script.Hashed(!failed));
      var error := NewError();
      r := if failed then Failure(error) else Success(tools.sha256(files[path]));
    }

    method Inspect(tools: Tools, path: string) returns (r: Result<Inspection, Error>)
      requires Valid() && (Reached(6) || Reached(10))
      modifies this
      ensures unchanged(`phase, `effects, `files)
      ensures Valid() && Explained(Limit(), log, place) && (old(jobDone) ==> jobDone)
      ensures r.Success? ==> path in files && r.value == tools.inspect(files[path])
      ensures r.Failure? ==> Unmarked(r.error)
      ensures Called(Script.Inspected(r.Success?))
      ensures place == Script.Then(old(place).step, old(place).dir, r.Success?, OptimizationFailed)
    {
      hide Script.Next, Script.Then, Script.FailureIn, Valid, Explained;
      Elapse();
      var failed: bool := *;
      failed := failed || path !in files;
      Script.InspectedNext(Limit(), place.step, place.dir, !failed);
      Note(Script.Inspected(!failed));
      var error := NewError();
      r := if failed then Failure(error) else Success(tools.inspect(files[path]));
    }

    method Optimize(tools: Tools, inputPath: string, outputPath: string, options: Options) returns (error: Option<Error>)
      requires Valid() && Reached(8)
      modifies this
      ensures unchanged(`phase, `effects)
      ensures Valid() && Explained(Limit(), log, place) && (old(jobDone) ==> jobDone)
      ensures files.Keys <= old(files.Keys) + {outputPath}
      ensures error.None? ==> inputPath in old(files)
      ensures error.None? ==> files == old(files)[outputPath := tools.optimize(old(files)[inputPath], options)]
      ensures error.Some? ==> Unmarked(error.value)
      ensures Called(Script.Optimized(error.None?))
      ensures place == Script.Then(old(place).step, old(place).dir, error.None?, OptimizationFailed)
    {
      hide Script.Next, Script.Then, Script.FailureIn, InOrder, Explained;
      Elapse();
      var failed: bool := *;
      failed := failed || inputPath !in files;
      Script.OptimizedNext(Limit(), place.dir, !failed);
      Note(Script.Optimized(!failed));
      if failed {
        var foreign := NewError();
        return Some(foreign);
      }
      files := files[outputPath := tools.optimize(files[inputPath], options)];
      return None;
    }

    method Upload(key: string, path: string, contentType: string) returns (error: Option<Error>)
      requires Valid() && Reached(14) && phase.Fetched? && path in files
      requires key == phase.spec.outputKey && contentType == GetMimeType(phase.spec.outputTarget)
      requires |phase.source| <= Limit()
      requires files[path] == service.tools.optimize(phase.source, phase.spec.options)
      modifies this
      ensures unchanged(`files)
      ensures Valid() && Explained(Limit(), log, place) && (old(jobDone) ==> jobDone)
      ensures phase == if error.None? then Stored(old(phase).job, old(phase).spec, old(phase).source)
                       else Doomed(old(phase).job, UploadFailed)
      ensures Added() && LastEffect().Store? && LastEffect().ok == error.None?
      ensures error.Some? ==> Unmarked(error.value)
      ensures Called(Script.Uploaded(error.None?))
      ensures place == Script.Then(old(place).step, old(place).dir, error.None?, UploadFailed)
    {
      hide Script.Next, Script.Then, Script.FailureIn, Valid, Explained;
      Elapse();
      var landed: bool, failed: bool := *, *;
      Script.UploadedNext(Limit(), place.dir, !failed);
      Note(Script.Uploaded(!failed));
      ghost var effect := Store(key, files[path], landed || !failed, !failed);
      Record(effect);
      if failed {
        var foreign := NewError();
        return Some(foreign);
      }
      return None;
    }

    /** The publisher's enqueue; a job context that is done makes it fail. */
    method Enqueue(outcome: Outcome) returns (error: Option<Error>)
      requires Valid() && MayPublish(service.tools, phase, outcome)
      requires place == Script.Refused || place.Closed?
      requires Script.Says(outcome, Script.FailureIn(place))
      modifies this
      ensures unchanged(`files)
      ensures Valid() && (old(jobDone) ==> jobDone)
      ensures phase == Returned(Published(outcome, error.None?))
      ensures Added() && LastEffect().Enqueue? && LastEffect().outcome == outcome && LastEffect().ok == error.None?
      ensures error.Some? ==> Unmarked(error.value)
      ensures old(jobDone) ==> error.Some?
      ensures Called(Script.Announced(outcome, error.None?))
      ensures place.Answered? && place.failure == Script.FailureIn(old(place)) && place.ok == error.None? && !place.reported
    {
      hide Script.Next, Script.FailureIn, Script.Says, Valid, Explained, MayPublish;
      Elapse();
      var landed: bool, failed: bool := *, *;
      failed := failed || jobDone;
      ghost var effect := Effect.Enqueue(outcome, landed || !failed, !failed);
      Script.AnnouncedNext(Limit(), place, outcome, !failed);
      Note(Script.Announced(outcome, !failed));
      Record(effect);
      if failed {
        var foreign := NewError();
        return Some(foreign);
      }
      return None;
    }

    // ----- the consumer's calls -----

    /** parent.Err() != nil */
    method ParentCancelled() returns (cancelled: bool)
      requires Valid() && Sampled(phase, true).Some? && Sampled(phase, false).Some?
      modifies this
      ensures unchanged(`place, `log, `files)
      ensures Valid() && (old(jobDone) ==> jobDone)
      ensures Some(phase) == Sampled(old(phase), cancelled)
      ensures effects == old(effects) + [Sample(cancelled)]
      ensures cancelled == parentCancelled && (old(parentCancelled) ==> cancelled)
    {
      Elapse();
      cancelled := parentCancelled;
      Record(Sample(cancelled));
    }

    method Complete() returns (error: Option<Error>)
      requires Valid() && phase.Completing?
      modifies this
      ensures unchanged(`place, `log, `files)
      ensures Valid() && phase == Finished
      ensures Added() && LastEffect().Delete? && LastEffect().ok == error.None?
    {
      Elapse();
      var landed: bool, failed: bool := *, *;
      ghost var effect := Delete(landed || !failed, !failed);
      Record(effect);
      var foreign := NewError();
      error := if failed then Some(foreign) else None;
    }

    method Retry(delay: int) returns (error: Option<Error>)
      requires Valid() && MayRetry(service.config, readCount, phase, delay)
      modifies this
      ensures unchanged(`place, `log, `files)
      ensures Valid() && phase == Finished
      ensures Added() && LastEffect().SetVisibility? && LastEffect().delay == delay && LastEffect().ok == error.None?
    {
      Elapse();
      var landed: bool, failed: bool := *, *;
      ghost var effect := SetVisibility(delay, landed || !failed, !failed);
      Record(effect);
      var foreign := NewError();
      error := if failed then Some(foreign) else None;
    }

    method DeadLetter() returns (error: Option<Error>)
      requires Valid() && MayArchive(service.config, readCount, phase)
      modifies this
      ensures unchanged(`place, `log, `files)
      ensures Valid() && phase == Finished
      ensures Added() && LastEffect().Archive? && LastEffect().ok == error.None?
    {
      Elapse();
      var landed: bool, failed: bool := *, *;
      ghost var effect := Archive(landed || !failed, !failed);
      Record(effect);
      var foreign := NewError();
      error := if failed then Some(foreign) else None;
    }
  }
}
