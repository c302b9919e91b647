/**
 Mesh jobs as they arrive and the checks they pass before any work is done
 (internal/handler/validation.go). UUID parsing and the media key builder are
 parameters.
 */
module Validation {
  import opened Wrappers
  import opened Strings
  import opened Options

  datatype EntityType = UnspecifiedEntity | Entity(kind: nat)

  datatype Target = Target(fileId: string, extension: string, mimeType: string, objectKey: string)

  datatype Identity = Identity(entityType: EntityType, fileId: string, entityId: string, source: Option<Target>)

  datatype Job = Job(
    jobId: string,
    correlationId: string,
    identity: Option<Identity>,
    output: Option<Target>,
    options: Option<EventOptions>)

  datatype Spec = Spec(jobId: string, sourceKey: string, outputKey: string, outputTarget: Option<Target>, options: Options)

  datatype Field = JobId | CorrelationId | IdentityField | EntityTypeField | FileId | EntityId | Source | Output | OptionsField

  datatype Problem =
    | Missing(field: Field)
    | NotUuid(field: Field)
    | WrongExtension(field: Field)
    | WrongMimeType(field: Field)
    | NoKey(field: Field)
    | WrongKey(field: Field)
    | SourceMismatch
    | SameFile
    | BadOptions(error: OptionsError)

  const EXTENSION: string := "glb"
  const MIME_TYPE: string := "model/gltf-binary"

  /** uuid.Parse and mediaauth.MediaObjectKey. */
  datatype Checks = Checks(isUuid: string -> bool, mediaKey: (string, string) -> Option<string>)

  function ValidateJobId(checks: Checks, job: Job): Option<Problem> {
    if TrimSpace(job.jobId) == "" then Some(Missing(JobId))
    else if !checks.isUuid(job.jobId) then Some(NotUuid(JobId))
    else None
  }

  function ValidateMediaTarget(checks: Checks, field: Field, target: Option<Target>): Option<Problem> {
    if target.None? then Some(Missing(field))
    else if !checks.isUuid(target.value.fileId) then Some(NotUuid(field))
    else if target.value.extension != EXTENSION then Some(WrongExtension(field))
    else if target.value.mimeType != MIME_TYPE then Some(WrongMimeType(field))
    else
      var expectedKey := checks.mediaKey(target.value.fileId, target.value.extension);
      if expectedKey.None? then Some(NoKey(field))
      else if target.value.objectKey != expectedKey.value then Some(WrongKey(field))
      else None
  }

  function ValidateIdentity(checks: Checks, identity: Option<Identity>): Option<Problem> {
    if identity.None? then Some(Missing(IdentityField))
    else if identity.value.entityType.UnspecifiedEntity? then Some(Missing(EntityTypeField))
    else if TrimSpace(identity.value.fileId) == "" then Some(Missing(FileId))
    else if TrimSpace(identity.value.entityId) == "" then Some(Missing(EntityId))
    else
      var problem := ValidateMediaTarget(checks, Source, identity.value.source);
      if problem.Some? then problem
      else if identity.value.source.value.fileId != identity.value.fileId then Some(SourceMismatch)
      else None
  }

  function ValidateOutput(checks: Checks, output: Option<Target>, sourceFileId: string): Option<Problem> {
    var problem := ValidateMediaTarget(checks, Output, output);
    if problem.Some? then problem
    else if output.value.fileId == sourceFileId then Some(SameFile)
    else None
  }

  function ValidateJob(checks: Checks, job: Job): Option<Problem> {
    var problem := ValidateJobId(checks, job);
    if problem.Some? then problem
    else if TrimSpace(job.correlationId) == "" then Some(Missing(CorrelationId))
    else
      var identityProblem := ValidateIdentity(checks, job.identity);
      if identityProblem.Some? then identityProblem
      else ValidateOutput(checks, job.output, job.identity.value.fileId)
  }

  // Generated getters, which take a missing message for an empty one.

  function GetSource(identity: Option<Identity>): Option<Target> {
    if identity.None? then None else identity.value.source
  }

  function GetObjectKey(target: Option<Target>): string {
    if target.None? then "" else target.value.objectKey
  }

  function GetFileId(target: Option<Target>): string {
    if target.None? then "" else target.value.fileId
  }

  function GetMimeType(target: Option<Target>): string {
    if target.None? then "" else target.value.mimeType
  }

  function NewMeshJobSpec(checks: Checks, job: Job): Result<Spec, Problem> {
    var problem := ValidateJob(checks, job);
    if problem.Some? then Failure(problem.value)
    else
      match OptionsFromEvent(job.options)
      case Failure(error) => Failure(BadOptions(error))
      case Success(options) =>
        Success(Spec(TrimSpace(job.jobId), GetObjectKey(GetSource(job.identity)), GetObjectKey(job.output), job.output, options))
  }

  /** A target whose key is the one built for its file. */
  ghost predicate GoodTarget(checks: Checks, target: Target) {
    && checks.isUuid(target.fileId) && target.extension == "glb" && target.mimeType == "model/gltf-binary"
    && checks.mediaKey(target.fileId, EXTENSION) == Some(target.objectKey)
  }

  /** What the checks let through, and what the accepted work is. */
  lemma AcceptedExactly(checks: Checks, job: Job)
    ensures var accepted := NewMeshJobSpec(checks, job);
            accepted.Success? <==>
            && TrimSpace(job.jobId) != "" && checks.isUuid(job.jobId) && TrimSpace(job.correlationId) != ""
            && job.identity.Some? && job.identity.value.source.Some? && job.output.Some?
            && var identity, output := job.identity.value, job.output.value;
            && identity.entityType.Entity? && TrimSpace(identity.fileId) != "" && TrimSpace(identity.entityId) != ""
            && GoodTarget(checks, identity.source.value) && GoodTarget(checks, output)
            && identity.fileId == identity.source.value.fileId != output.fileId
            && OptionsFromEvent(job.options).Success?
    ensures var accepted := NewMeshJobSpec(checks, job);
            accepted.Success? ==>
            var spec := accepted.value;
            && spec.jobId == TrimSpace(job.jobId) && OptionsFromEvent(job.options) == Success(spec.options)
            && checks.mediaKey(job.identity.value.fileId, EXTENSION) == Some(spec.sourceKey)
            && spec.outputTarget == job.output && checks.mediaKey(job.output.value.fileId, EXTENSION) == Some(spec.outputKey)
  {
    hide TrimSpace, OptionsFromEvent;
  }

  /** Different files get different keys. */
  ghost predicate KeysTellFilesApart(checks: Checks) {
    forall a, b ::
      && checks.isUuid(a) && checks.isUuid(b) && TrimSpace(a) != "" && a != b
      && checks.mediaKey(a, EXTENSION).Some? ==>
        checks.mediaKey(a, EXTENSION) != checks.mediaKey(b, EXTENSION)
  }

  /** No accepted job writes over its own source. */
  ghost predicate SourcesSurvive(checks: Checks) {
    forall job :: NewMeshJobSpec(checks, job).Success? ==>
      NewMeshJobSpec(checks, job).value.outputKey != NewMeshJobSpec(checks, job).value.sourceKey
  }

  function Exchange(checks: Checks, a: string, b: string): Job
    requires checks.mediaKey(a, EXTENSION).Some? && checks.mediaKey(b, EXTENSION).Some?
  {
    var source := Target(a, EXTENSION, MIME_TYPE, checks.mediaKey(a, EXTENSION).value);
    var output := Target(b, EXTENSION, MIME_TYPE, checks.mediaKey(b, EXTENSION).value);
    Job(a, a, Some(Identity(Entity(1), a, a, Some(source))), Some(output),
        Some(EventOptions(Draco, 50, EventDracoWebP)))
  }

  /** The checks protect a job's source exactly when the key builder tells files apart. */
  lemma SourcesSurviveExactly(checks: Checks)
    ensures SourcesSurvive(checks) <==> KeysTellFilesApart(checks)
  {
    hide TrimSpace;
    if KeysTellFilesApart(checks) {
      forall job | NewMeshJobSpec(checks, job).Success?
        ensures NewMeshJobSpec(checks, job).value.outputKey != NewMeshJobSpec(checks, job).value.sourceKey {
        AcceptedExactly(checks, job);
      }
    }
    if SourcesSurvive(checks) {
      forall a, b |
        && checks.isUuid(a) && checks.isUuid(b) && TrimSpace(a) != "" && a != b && checks.mediaKey(a, EXTENSION).Some?
        ensures checks.mediaKey(a, EXTENSION) != checks.mediaKey(b, EXTENSION) {
        if checks.mediaKey(a, EXTENSION) == checks.mediaKey(b, EXTENSION) {
          AcceptedExactly(checks, Exchange(checks, a, b));
        }
      }
    }
  }
}
